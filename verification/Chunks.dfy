/** How a run of positions is cut at page boundaries. The bulk loops of the paged arrays all use the
    same arithmetic: `divisor` positions a page, `total` pages touched, and for page number `i`
    counted from the first touched one the part `[From(i), To(i))` of the buffer. */
module Chunks {

  function DivCeil(a: nat, b: nat): nat
    requires b > 0
  {
    if a % b == 0 then a / b else a / b + 1
  }

  /** Saturating subtraction. */
  function Minus(a: nat, b: nat): nat {
    if a >= b then a - b else 0
  }

  function Min(a: int, b: int): int {
    if a <= b then a else b
  }

  lemma ProductMonotone(a: nat, b: nat, d: nat)
    requires a <= b
    ensures a * d <= b * d
  {
  }

  lemma DivCeilSandwich(a: nat, d: nat)
    requires d > 0
    ensures a <= DivCeil(a, d) * d < a + d
  {
  }

  /** `DivCeil` is the least page count whose pages hold `a` positions. */
  lemma DivCeilLeast(a: nat, d: nat, n: nat)
    requires d > 0
    ensures a <= n * d <==> DivCeil(a, d) <= n
  {
    DivCeilSandwich(a, d);
    if DivCeil(a, d) <= n {
      ProductMonotone(DivCeil(a, d), n, d);
    } else {
      ProductMonotone(n + 1, DivCeil(a, d), d);
      assert (n + 1) * d == n * d + d;
    }
  }

  lemma Quotient(index: nat, d: nat)
    requires d > 0
    ensures 0 <= index - (index / d) * d < d
  {
  }

  /** The page that holds position `index`. */
  function PageOf(index: nat, divisor: nat): nat
    requires divisor > 0
  {
    index / divisor
  }

  /** Where in its page position `index` lies. */
  function OffsetOf(index: nat, divisor: nat): nat
    requires divisor > 0
  {
    Quotient(index, divisor);
    index - (index / divisor) * divisor
  }

  /** First buffer position that falls in page `i`. */
  function From(i: nat, divisor: nat, pageIndex: nat): nat {
    Minus(i * divisor, pageIndex)
  }

  /** One past the last buffer position that falls in page `i`. */
  function To(i: nat, divisor: nat, pageIndex: nat, len: nat): int {
    Min((i + 1) * divisor - pageIndex, len)
  }

  /** Where the run enters page `i`. */
  function Entry(i: nat, pageIndex: nat): nat {
    if i == 0 then pageIndex else 0
  }

  /** The cuts follow each other without gap or overlap, stay inside their page, and are empty only
      for an empty run. */
  lemma Cut(index: nat, len: nat, d: nat, i: nat)
    requires d > 0
    ensures var first := index / d;
      var last := DivCeil(index + len, d);
      var pageIndex := index - first * d;
      && 0 <= pageIndex < d
      && first <= last
      && (i < last - first ==>
            && From(i, d, pageIndex) <= To(i, d, pageIndex, len) <= len
            && (From(i, d, pageIndex) == To(i, d, pageIndex, len) ==> len == 0)
            && Entry(i, pageIndex) + (To(i, d, pageIndex, len) - From(i, d, pageIndex)) <= d
            && (first + i) * d + Entry(i, pageIndex) == index + From(i, d, pageIndex)
            && To(i, d, pageIndex, len) == if i + 1 == last - first then len else From(i + 1, d, pageIndex))
      && (first == last ==> len == 0)
      && (len == 0 ==> last <= first + 1)
  {
    hide DivCeil, From, To, Entry;
    CutBounds(index, len, d);
    if i < DivCeil(index + len, d) - index / d {
      CutAt(index, len, d, i);
    }
  }

  lemma CutBounds(index: nat, len: nat, d: nat)
    requires d > 0
    ensures var first := index / d;
      var last := DivCeil(index + len, d);
      0 <= index - first * d < d && first <= last && (first == last ==> len == 0) && (len == 0 ==> last <= first + 1)
  {
  }

  lemma CutAt(index: nat, len: nat, d: nat, i: nat)
    requires d > 0 && i < DivCeil(index + len, d) - index / d
    ensures var first := index / d;
      var last := DivCeil(index + len, d);
      var pageIndex := index - first * d;
      && 0 <= pageIndex < d
      && From(i, d, pageIndex) <= To(i, d, pageIndex, len) <= len
      && (From(i, d, pageIndex) == To(i, d, pageIndex, len) ==> len == 0)
      && Entry(i, pageIndex) + (To(i, d, pageIndex, len) - From(i, d, pageIndex)) <= d
      && (first + i) * d + Entry(i, pageIndex) == index + From(i, d, pageIndex)
      && To(i, d, pageIndex, len) == if i + 1 == last - first then len else From(i + 1, d, pageIndex)
  {
    hide DivCeil, From, To;
    var first := index / d;
    Quotient(index, d);
    DivCeilLeast(index + len, d, first + i);
    DivCeilLeast(index + len, d, first + i + 1);
    assert (first + i) * d == first * d + i * d;
    assert (first + i + 1) * d == first * d + (i + 1) * d;
    CutPage(index - first * d, len, d, i, i * d);
    assert (i + 1) * d == i * d + d;
    if i > 0 {
      ProductMonotone(1, i, d);
    }
  }

  /** The arithmetic of one page, with `di` for the positions before page `i`. */
  lemma CutPage(pageIndex: nat, len: nat, d: nat, i: nat, di: nat)
    requires pageIndex < d && di == i * d
    ensures From(i, d, pageIndex) == Minus(di, pageIndex)
    ensures To(i, d, pageIndex, len) == Min(di + d - pageIndex, len)
    ensures From(i + 1, d, pageIndex) == di + d - pageIndex
  {
  }

  /** A run inside `n` pages touches no page beyond them. */
  lemma CutInside(index: nat, len: nat, d: nat, n: nat)
    requires d > 0 && index + len <= n * d
    ensures DivCeil(index + len, d) <= n
  {
    DivCeilLeast(index + len, d, n);
  }

  lemma EntryOf(index: nat, d: nat, n: nat)
    requires d > 0
    ensures index == PageOf(index, d) * d + OffsetOf(index, d) && OffsetOf(index, d) < d
    ensures index < n * d ==> PageOf(index, d) < n
  {
  }

  /** Every page that is touched starts before the run ends. */
  lemma CutWithin(index: nat, len: nat, d: nat, page: nat)
    requires d > 0 && page < DivCeil(index + len, d)
    ensures page * d < index + len
  {
    DivCeilLeast(index + len, d, page);
  }

  /** Each cut but the last ends where its page does. */
  lemma CutEnd(index: nat, len: nat, d: nat, i: nat)
    requires d > 0 && i < DivCeil(index + len, d) - index / d
    ensures var first := index / d;
      var end := index + To(i, d, index - first * d, len);
      && end == Min(index + len, (first + i) * d + d)
      && (i + 1 < DivCeil(index + len, d) - first ==> end == (first + i) * d + d)
  {
    hide DivCeil;
    var first := index / d;
    Quotient(index, d);
    Distribute(first, i + 1, d);
    Distribute(first + i, 1, d);
    if i + 1 < DivCeil(index + len, d) - first {
      CutWithin(index, len, d, first + i + 1);
    }
  }

  lemma Distribute(a: nat, b: nat, d: nat)
    ensures (a + b) * d == a * d + b * d
  {
  }
}
