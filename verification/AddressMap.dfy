/** Maps from disjoint ranges of 32-bit addresses to values. */
module AddressMaps {
  import opened Integers
  import opened Options

  /** A non-empty range with both bounds included. */
  datatype Bounds = Bounds(start: u32, end: u32)

  type AddressRange = r: Bounds | r.start <= r.end witness Bounds(0, 0)

  predicate Contains(r: AddressRange, address: u32) {
    r.start <= address <= r.end
  }

  ghost predicate Disjoint(a: AddressRange, b: AddressRange) {
    forall address: u32 :: !(Contains(a, address) && Contains(b, address))
  }

  type Entry<T> = (AddressRange, T)

  ghost predicate PairwiseDisjoint<T>(entries: seq<Entry<T>>) {
    forall i, j :: 0 <= i < j < |entries| ==> Disjoint(entries[i].0, entries[j].0)
  }

  /** The shape of a finished map: every range ends before the next one starts. */
  ghost predicate Ordered<T>(entries: seq<Entry<T>>) {
    forall i, j :: 0 <= i < j < |entries| ==> entries[i].0.end < entries[j].0.start
  }

  // ---------- Regions ----------

  /** A region of the address space: a mapped range with its value, or a vacant range that cannot be
      extended at either end. */
  ghost predicate IsRegion<T>(entries: seq<Entry<T>>, r: AddressRange, value: Option<T>) {
    match value
    case Some(v) => (r, v) in entries
    case None =>
      && (forall e :: e in entries ==> Disjoint(e.0, r))
      && (r.start > 0 ==> exists e :: e in entries && Contains(e.0, r.start - 1))
      && (r.end < U32_MAX ==> exists e :: e in entries && Contains(e.0, r.end + 1))
  }

  /** The regions partition the address space: two of them that share an address are the same. */
  lemma RegionsPartition<T>(entries: seq<Entry<T>>, r: AddressRange, value: Option<T>, s: AddressRange,
                            other: Option<T>, address: u32)
    requires Ordered(entries) && IsRegion(entries, r, value) && IsRegion(entries, s, other)
    requires Contains(r, address) && Contains(s, address)
    ensures r == s && value == other
  {
  }

  // ---------- Sorting by start ----------

  predicate SortedByStart<T>(entries: seq<Entry<T>>) {
    forall i, j :: 0 <= i < j < |entries| ==> entries[i].0.start <= entries[j].0.start
  }

  function Insert<T>(entries: seq<Entry<T>>, e: Entry<T>): seq<Entry<T>> {
    if entries == [] || entries[|entries| - 1].0.start <= e.0.start then entries + [e]
    else Insert(entries[..|entries| - 1], e) + [entries[|entries| - 1]]
  }

  /** The library's stable sort. */
  function SortByStart<T>(entries: seq<Entry<T>>): seq<Entry<T>> {
    if entries == [] then [] else Insert(SortByStart(entries[..|entries| - 1]), entries[|entries| - 1])
  }

  /** `b` has the elements of `a`, in another order. */
  ghost predicate Rearranges<X>(a: seq<X>, b: seq<X>) {
    multiset(a) == multiset(b)
  }

  lemma {:induction false} InsertRearranges<T>(entries: seq<Entry<T>>, e: Entry<T>)
    ensures Rearranges(entries + [e], Insert(entries, e))
  {
    if entries != [] && entries[|entries| - 1].0.start > e.0.start {
      var n := |entries| - 1;
      InsertRearranges(entries[..n], e);
      assert entries == entries[..n] + [entries[n]];
    }
  }

  lemma {:induction false} InsertSorted<T>(entries: seq<Entry<T>>, e: Entry<T>)
    requires SortedByStart(entries)
    ensures SortedByStart(Insert(entries, e))
  {
    if entries != [] && entries[|entries| - 1].0.start > e.0.start {
      var n := |entries| - 1;
      InsertSorted(entries[..n], e);
      InsertBelow(entries[..n], e, entries[n].0.start);
    }
  }

  lemma {:induction false} InsertBelow<T>(entries: seq<Entry<T>>, e: Entry<T>, bound: u32)
    requires e.0.start <= bound && forall x :: x in entries ==> x.0.start <= bound
    ensures forall x :: x in Insert(entries, e) ==> x.0.start <= bound
  {
    if entries != [] && entries[|entries| - 1].0.start > e.0.start {
      InsertBelow(entries[..|entries| - 1], e, bound);
    }
  }

  lemma {:induction false} SortByStartSorts<T>(entries: seq<Entry<T>>)
    ensures SortedByStart(SortByStart(entries)) && Rearranges(entries, SortByStart(entries))
  {
    if entries != [] {
      var n := |entries| - 1;
      SortByStartSorts(entries[..n]);
      InsertSorted(SortByStart(entries[..n]), entries[n]);
      InsertRearranges(SortByStart(entries[..n]), entries[n]);
      assert entries == entries[..n] + [entries[n]];
    }
  }

  /** Disjointness does not depend on the order of the entries. */
  lemma RearrangedDisjoint<T>(a: seq<Entry<T>>, b: seq<Entry<T>>)
    requires Rearranges(a, b) && PairwiseDisjoint(a)
    ensures PairwiseDisjoint(b)
  {
    forall i, j | 0 <= i < j < |b| ensures Disjoint(b[i].0, b[j].0) {
      if !Disjoint(b[i].0, b[j].0) {
        TwoOccurrences(a, b, i, j);
      }
    }
  }

  lemma TwoOccurrences<T>(a: seq<Entry<T>>, b: seq<Entry<T>>, i: nat, j: nat)
    requires Rearranges(a, b) && i < j < |b| && !Disjoint(b[i].0, b[j].0)
    ensures !PairwiseDisjoint(a)
  {
    assert b[i] in multiset(b) && b[j] in multiset(b);
    var k :| 0 <= k < |a| && a[k] == b[i];
    if b[i] != b[j] {
      var l :| 0 <= l < |a| && a[l] == b[j];
      assert !Disjoint(a[if k < l then k else l].0, a[if k < l then l else k].0);
    } else {
      Twice(b, i, j);
      var l := OtherOccurrence(a, k);
      assert !Disjoint(a[if k < l then k else l].0, a[if k < l then l else k].0);
    }
  }

  lemma OtherOccurrence<X>(a: seq<X>, k: nat) returns (l: nat)
    requires k < |a| && multiset(a)[a[k]] >= 2
    ensures l < |a| && l != k && a[l] == a[k]
  {
    var rest := a[..k] + a[k + 1..];
    assert a == a[..k] + [a[k]] + a[k + 1..];
    assert a[k] in multiset(rest);
    var m :| 0 <= m < |rest| && rest[m] == a[k];
    l := if m < k then m else m + 1;
  }

  lemma Twice<X>(b: seq<X>, i: nat, j: nat)
    requires i < j < |b| && b[i] == b[j]
    ensures multiset(b)[b[i]] >= 2
  {
    assert b == b[..j] + [b[j]] + b[j + 1..];
    assert b[i] in b[..j];
  }

  // ---------- Building a map ----------

  datatype MapResult<M> = Ok(value: M) | OverlappingAddressRanges | DuplicateValues

  /** Builds a map; succeeds exactly when the ranges are pairwise disjoint. */
  method TryFrom<T>(entries: seq<Entry<T>>) returns (r: MapResult<seq<Entry<T>>>)
    ensures r.Ok? <==> PairwiseDisjoint(entries)
    ensures r.Ok? ==> Ordered(r.value) && Rearranges(entries, r.value)
    ensures r.Ok? ==>
      && multiset(entries) == multiset(r.value)
      && forall i, j :: 0 <= i < j < |r.value| ==> r.value[i].0.end < r.value[j].0.start
    ensures !r.Ok? ==> r.OverlappingAddressRanges?
  {
    var sorted := SortByStart(entries);
    SortByStartSorts(entries);
    if sorted != [] {
      var prev := sorted[0].0;
      var i := 1;
      while i < |sorted|
        invariant 1 <= i <= |sorted| && prev == sorted[i - 1].0
        invariant Ordered(sorted[..i])
      {
        var range := sorted[i].0;
        if range.start <= prev.end {
          assert Contains(sorted[i - 1].0, range.start) && Contains(sorted[i].0, range.start);
          assert !PairwiseDisjoint(sorted);
          if PairwiseDisjoint(entries) {
            RearrangedDisjoint(entries, sorted);
          }
          return OverlappingAddressRanges;
        }
        OrderedGrows(sorted, i);
        prev := range;
        i := i + 1;
      }
      assert sorted[..i] == sorted;
    }
    assert PairwiseDisjoint(sorted);
    RearrangedDisjoint(sorted, entries);
    r := Ok(sorted);
  }

  lemma OrderedGrows<T>(entries: seq<Entry<T>>, i: nat)
    requires 1 <= i < |entries| && Ordered(entries[..i]) && entries[i - 1].0.end < entries[i].0.start
    ensures Ordered(entries[..i + 1])
  {
  }

  // ---------- Looking up an address ----------

  /** The region of an address, by binary search. No sum or difference leaves the 32-bit range. */
  method RangeValue<T>(entries: seq<Entry<T>>, address: u32) returns (range: AddressRange, value: Option<T>)
    requires Ordered(entries)
    ensures Contains(range, address) && IsRegion(entries, range, value)
    ensures range.start <= address <= range.end && (value.Some? ==> (range, value.value) in entries)
    ensures value.None? ==>
      && (forall e :: e in entries ==> e.0.end < range.start || range.end < e.0.start)
      && (range.start > 0 ==> exists e :: e in entries && e.0.end == range.start - 1)
      && (range.end < U32_MAX ==> exists e :: e in entries && e.0.start == range.end + 1)
  {
    var low, high := 0, |entries|;
    while low < high
      invariant 0 <= low <= high <= |entries|
      invariant forall i :: 0 <= i < low ==> entries[i].0.end < address
      invariant forall i :: high <= i < |entries| ==> address < entries[i].0.start
    {
      var mid := low + (high - low) / 2;
      var r := entries[mid].0;
      if address < r.start {
        high := mid;
      } else if address <= r.end {
        assert entries[mid] in entries;
        return r, Some(entries[mid].1);
      } else {
        low := mid + 1;
      }
    }
    var start: u32 := if low > 0 then entries[low - 1].0.end + 1 else 0;
    var end: u32 := if low < |entries| then entries[low].0.start - 1 else U32_MAX;
    range, value := Bounds(start, end), None;
    VacantRegion(entries, low, range, address);
  }

  lemma VacantRegion<T>(entries: seq<Entry<T>>, low: nat, range: AddressRange, address: u32)
    requires Ordered(entries) && low <= |entries|
    requires forall i :: 0 <= i < low ==> entries[i].0.end < address
    requires forall i :: low <= i < |entries| ==> address < entries[i].0.start
    requires range.start == if low > 0 then entries[low - 1].0.end + 1 else 0
    requires range.end == if low < |entries| then entries[low].0.start - 1 else U32_MAX
    ensures IsRegion(entries, range, None)
    ensures forall e :: e in entries ==> e.0.end < range.start || range.end < e.0.start
    ensures low > 0 ==> exists e :: e in entries && e.0.end == range.start - 1
    ensures low < |entries| ==> exists e :: e in entries && e.0.start == range.end + 1
  {
    assert low > 0 ==> entries[low - 1] in entries;
    assert low < |entries| ==> entries[low] in entries;
  }

  /** Ranges are disjoint when one of any two ends before the other starts. */
  lemma DisjointApart<T>(entries: seq<Entry<T>>)
    ensures PairwiseDisjoint(entries) <==>
      forall i, j :: 0 <= i < j < |entries| ==>
        entries[i].0.end < entries[j].0.start || entries[j].0.end < entries[i].0.start
  {
    forall i, j | 0 <= i < j < |entries|
      ensures Disjoint(entries[i].0, entries[j].0) <==>
        entries[i].0.end < entries[j].0.start || entries[j].0.end < entries[i].0.start
    {
      var a, b := entries[i].0, entries[j].0;
      var later := if a.start < b.start then b.start else a.start;
      assert Disjoint(a, b) ==> !(Contains(a, later) && Contains(b, later));
    }
  }

  /** Builds a map and looks up an address in it: the entry whose range holds the address is found if there
      is one. */
  method BuildAndFind<T>(entries: seq<Entry<T>>, address: u32) returns (found: Option<(AddressRange, Option<T>)>)
    ensures found.Some? <==> forall i, j :: 0 <= i < j < |entries| ==>
      entries[i].0.end < entries[j].0.start || entries[j].0.end < entries[i].0.start
    ensures found.Some? ==> forall e :: e in entries && e.0.start <= address <= e.0.end ==>
      found.value == (e.0, Some(e.1))
    ensures found.Some? && found.value.1.Some? ==> (found.value.0, found.value.1.value) in entries
    ensures found.Some? ==> found.value.0.start <= address <= found.value.0.end
  {
    DisjointApart(entries);
    var built := TryFrom(entries);
    if !built.Ok? {
      return None;
    }
    forall e ensures e in entries <==> e in built.value {
      assert e in multiset(entries) <==> e in multiset(built.value);
    }
    var range, value := RangeValue(built.value, address);
    found := Some((range, value));
  }

  // ---------- Maps that can be inverted ----------

  ghost predicate DistinctValues<T>(entries: seq<Entry<T>>) {
    forall i, j :: 0 <= i < j < |entries| ==> entries[i].1 != entries[j].1
  }

  /** Builds a map with its inverse; succeeds exactly when ranges are disjoint and values distinct. */
  method TryFromTwoWay<T(==,
                         !new)>(entries: seq<Entry<T>>) returns (r: MapResult<(seq<Entry<T>>, map<T, AddressRange>)>)
    ensures r.OverlappingAddressRanges? <==> !PairwiseDisjoint(entries)
    ensures r.Ok? ==> Ordered(r.value.0) && Rearranges(entries, r.value.0) && DistinctValues(r.value.0)
    ensures r.Ok? <==> PairwiseDisjoint(entries) && DistinctValues(entries)
    ensures r.Ok? ==> Inverts(r.value.1, r.value.0)
    ensures r.Ok? ==>
      && multiset(entries) == multiset(r.value.0)
      && forall range, value :: (range, value) in r.value.0 <==> value in r.value.1 && r.value.1[value] == range
  {
    hide PairwiseDisjoint, Ordered, Rearranges, DistinctValues, Inverts;
    var built := TryFrom(entries);
    if !built.Ok? {
      return OverlappingAddressRanges;
    }
    var sorted := built.value;
    var inverse: map<T, AddressRange> := map[];
    NothingInverted(sorted);
    for i := 0 to |sorted|
      invariant DistinctValues(sorted[..i]) && Inverts(inverse, sorted[..i])
    {
      var (range, value) := sorted[i];
      InverseGrows(inverse, sorted, i);
      if value in inverse {
        DuplicateFound(entries, sorted, i);
        return DuplicateValues;
      }
      inverse := inverse[value := range];
    }
    assert sorted[..|sorted|] == sorted;
    DistinctBefore(entries, sorted);
    InvertsIs(inverse, sorted);
    r := Ok((sorted, inverse));
  }

  /** The inverse holds exactly the given entries. */
  ghost predicate Inverts<T(!new)>(inverse: map<T, AddressRange>, entries: seq<Entry<T>>) {
    forall range, value :: (range, value) in entries <==> value in inverse && inverse[value] == range
  }

  lemma InvertsIs<T(!new)>(inverse: map<T, AddressRange>, entries: seq<Entry<T>>)
    requires Inverts(inverse, entries)
    ensures forall range, value :: (range, value) in entries <==> value in inverse && inverse[value] == range
  {
  }

  lemma NothingInverted<T(!new)>(entries: seq<Entry<T>>)
    ensures DistinctValues(entries[..0]) && Inverts(map[], entries[..0])
  {
  }

  lemma InverseGrows<T(!new)>(inverse: map<T, AddressRange>, entries: seq<Entry<T>>, i: nat)
    requires i < |entries| && DistinctValues(entries[..i]) && Inverts(inverse, entries[..i])
    ensures entries[i].1 in inverse ==> exists j :: 0 <= j < i && entries[j].1 == entries[i].1
    ensures entries[i].1 !in inverse ==>
      DistinctValues(entries[..i + 1]) && Inverts(inverse[entries[i].1 := entries[i].0], entries[..i + 1])
  {
    var (range, value) := entries[i];
    assert entries[..i + 1] == entries[..i] + [entries[i]];
    if value in inverse {
      assert (inverse[value], value) in entries[..i];
      var j :| 0 <= j < i && entries[..i][j] == (inverse[value], value);
      assert entries[j].1 == value;
    } else {
      forall j | 0 <= j < i ensures entries[j].1 != value {
        assert entries[..i][j] == (entries[j].0, entries[j].1) && entries[..i][j] in entries[..i];
      }
    }
  }

  lemma DuplicateFound<T>(entries: seq<Entry<T>>, sorted: seq<Entry<T>>, i: nat)
    requires Rearranges(entries, sorted) && Ordered(sorted) && i < |sorted|
    requires exists j :: 0 <= j < i && sorted[j].1 == sorted[i].1
    ensures !DistinctValues(entries)
  {
    var j :| 0 <= j < i && sorted[j].1 == sorted[i].1;
    SameValueTwice(entries, sorted, j, i);
  }

  lemma DistinctBefore<T>(entries: seq<Entry<T>>, sorted: seq<Entry<T>>)
    requires Rearranges(entries, sorted) && PairwiseDisjoint(entries) && DistinctValues(sorted)
    ensures DistinctValues(entries)
  {
    forall j, k | 0 <= j < k < |entries| ensures entries[j].1 != entries[k].1 {
      if entries[j].1 == entries[k].1 {
        assert Contains(entries[j].0, entries[j].0.start) && Disjoint(entries[j].0, entries[k].0);
        SameValueTwice(sorted, entries, j, k);
      }
    }
  }

  lemma SameValueTwice<T>(a: seq<Entry<T>>, b: seq<Entry<T>>, i: nat, j: nat)
    requires Rearranges(a, b) && i < j < |b| && b[i].1 == b[j].1 && b[i] != b[j]
    ensures !DistinctValues(a)
  {
    assert b[i] in multiset(b) && b[j] in multiset(b);
    var k :| 0 <= k < |a| && a[k] == b[i];
    var l :| 0 <= l < |a| && a[l] == b[j];
    assert a[if k < l then k else l].1 == a[if k < l then l else k].1;
  }
}
