/** The board: its memory map, accesses through the system bus, and loading a buffer into memory. */
module Boards {
  import opened Integers
  import opened Options
  import opened AddressMaps

  datatype Resource = Mrom | PowerDown | Clint | Plic | Uart0 | Flash | Dram

  type byte = bv8

  function BoardMap(): seq<Entry<Resource>> {
    [
      (Bounds(0x0000_1000, 0x0000_FFFF), Mrom),
      (Bounds(0x0010_0000, 0x0010_0003), PowerDown),
      (Bounds(0x0200_0000, 0x0200_FFFF), Clint),
      (Bounds(0x0C00_0000, 0x0C20_0FFF), Plic),
      (Bounds(0x1000_0000, 0x1000_00FF), Uart0),
      (Bounds(0x2000_0000, 0x23FF_FFFF), Flash),
      (Bounds(0x8000_0000, 0xFFFF_FFFF), Dram)
    ]
  }

  /** Neither building the fixed memory map nor looking up DRAM in it can fail. */
  lemma BoardMapIsValid()
    ensures PairwiseDisjoint(BoardMap()) && DistinctValues(BoardMap())
    ensures |BoardMap()| == 7 && BoardMap()[6] == (Bounds(0x8000_0000, 0xFFFF_FFFF), Dram)
  {
  }

  lemma Inverted(entries: seq<Entry<Resource>>, inverse: map<Resource, AddressRange>, range: AddressRange, r: Resource)
    requires Inverts(inverse, entries) && (range, r) in entries
    ensures r in inverse && inverse[r] == range
    ensures forall e :: e in entries && e.1 == r ==> e.0 == range
  {
  }

  lemma InMap<X>(a: seq<X>, b: seq<X>, i: nat)
    requires Rearranges(a, b) && i < |a|
    ensures a[i] in b
  {
    assert a[i] in multiset(a);
  }

  class Board {
    const memoryMap: seq<Entry<Resource>>
    const dramRange: AddressRange
    var dram: seq<byte>

    ghost predicate Valid()
      reads this
    {
      && Ordered(memoryMap) && (dramRange, Dram) in memoryMap
      && (forall e :: e in memoryMap && e.1 == Dram ==> e.0 == dramRange)
      && |dram| == dramRange.end - dramRange.start + 1
    }

    /** The byte of DRAM at an address of the system bus. */
    ghost function DramAt(a: u32): byte
      reads this
      requires Valid() && Contains(dramRange, a)
    {
      dram[a - dramRange.start]
    }

    /** The fixed memory map is well formed, and DRAM is zeroed. */
    constructor ()
      ensures Valid() && dramRange == Bounds(0x8000_0000, 0xFFFF_FFFF) && multiset(memoryMap) == multiset(BoardMap())
      ensures forall a: u32 :: Contains(dramRange, a) ==> DramAt(a) == 0
    {
      hide PairwiseDisjoint, DistinctValues, Disjoint, Ordered, Rearranges, Inverts, BoardMap;
      BoardMapIsValid();
      var built := TryFromTwoWay(BoardMap());
      var (ordered, ranges) := built.value;
      InMap(BoardMap(), ordered, 6);
      Inverted(ordered, ranges, BoardMap()[6].0, Dram);
      var at := ranges[Dram];
      var zero: byte := 0;
      memoryMap, dramRange := ordered, at;
      dram := seq(0x8000_0000, _ => zero);
    }

    /** The resource that takes an access, and the address in it; None when the access does not lie
        within one mapped range. */
    method CheckAccess(address: u32, size: nat) returns (r: Option<(Resource, u32)>)
      requires Valid()
      ensures match r
        case Some((resource, mapped)) =>
          size > 0 && exists range ::
            && (range, resource) in memoryMap && Contains(range, address)
            && address + size - 1 <= range.end && mapped == address - range.start
        case None =>
          size > 0 ==> forall e :: e in memoryMap ==> !(Contains(e.0, address) && address + size - 1 <= e.0.end)
    {
      var range, value := RangeValue(memoryMap, address);
      OneRegion(memoryMap, range, value, address);
      if value.None? || size == 0 || size - 1 > U32_MAX || range.end - address < size - 1 {
        return None;
      }
      r := Some((value.value, address - range.start));
    }

    /** Bytes past the end of the memory are ignored. */
    method WriteRam(address: u32, buf: seq<byte>)
      requires Valid()
      modifies this
      ensures Valid()
      ensures forall i :: 0 <= i < |dram| ==>
        dram[i] == if address <= i < address + |buf| then buf[i - address] else old(dram[i])
    {
      if address >= |dram| || buf == [] {
        return;
      }
      var end := if |dram| - 1 - address < |buf| - 1 then |dram| - 1 - address else |buf| - 1;
      dram := dram[..address] + buf[..end + 1] + dram[address + end + 1..];
    }

    /** A write through the system bus; what other devices do with it is not part of this model. */
    method WriteBus(address: u32, buf: seq<byte>)
      requires Valid()
      modifies this
      ensures Valid()
      ensures forall a: u32 :: Contains(dramRange, a) ==>
        DramAt(a) == if Contains(dramRange, address) && address + |buf| - 1 <= dramRange.end
          && address <= a < address + |buf|
                     then buf[a - address] else old(DramAt(a))
    {
      var access := CheckAccess(address, |buf|);
      match access
      case Some((Dram, mapped)) =>
        WriteRam(mapped, buf);
      case _ =>
    }

    /** Copies a buffer into the DRAM addresses it covers, one region of the memory map after the other. */
    method LoadPhysical(base: u32, buf: seq<byte>)
      requires Valid()
      modifies this
      ensures Valid()
      ensures forall a: u32 :: Contains(dramRange, a) ==>
        DramAt(a) == if base <= a < base + |buf| then buf[a - base] else old(DramAt(a))
    {
      if buf == [] {
        return;
      }
      var next: Option<u32> := Some(base);
      while next.Some? && next.value - base < |buf|
        invariant Valid() && (next.Some? ==> next.value >= base)
        invariant forall a: u32 :: Contains(dramRange, a) ==>
          DramAt(a) == if base <= a < base + |buf| && (next.Some? ==> a < next.value) then buf[a - base]
            else old(DramAt(a))
        decreases if next.Some? then U32_MAX - next.value + 1 else 0
      {
        var address := next.value;
        var range, resource := RangeValue(memoryMap, address);
        OneRegion(memoryMap, range, resource, address);
        next := if range.end < U32_MAX then Some(range.end + 1) else None;
        if resource == Some(Dram) {
          var first := address - base;
          var last := if range.end - base < |buf| - 1 then range.end - base else |buf| - 1;
          WriteBus(address, buf[first..last + 1]);
        } else {
          OtherRegion(memoryMap, range, resource, dramRange);
        }
      }
    }
  }

  /** No other mapped range holds an address of a region. */
  lemma OneRegion<T>(entries: seq<Entry<T>>, range: AddressRange, value: Option<T>, address: u32)
    requires Ordered(entries) && IsRegion(entries, range, value) && Contains(range, address)
    ensures forall e :: e in entries && Contains(e.0, address) ==> e.0 == range && value == Some(e.1)
  {
  }

  lemma OtherRegion(entries: seq<Entry<Resource>>, range: AddressRange, value: Option<Resource>, dram: AddressRange)
    requires Ordered(entries) && IsRegion(entries, range, value) && (dram, Dram) in entries && value != Some(Dram)
    ensures Disjoint(range, dram)
  {
  }

  /** Which resource of a new board takes an access, by its address. */
  method WhichResource(address: u32, size: nat) returns (r: Option<(Resource, u32)>)
    requires size > 0
    ensures var last := address + size - 1;
      r == if 0x1000 <= address && last <= 0xFFFF then Some((Mrom, address - 0x1000))
        else if 0x10_0000 <= address && last <= 0x10_0003 then Some((PowerDown, address - 0x10_0000))
        else if 0x200_0000 <= address && last <= 0x200_FFFF then Some((Clint, address - 0x200_0000))
        else if 0xC00_0000 <= address && last <= 0xC20_0FFF then Some((Plic, address - 0xC00_0000))
        else if 0x1000_0000 <= address && last <= 0x1000_00FF then Some((Uart0, address - 0x1000_0000))
        else if 0x2000_0000 <= address && last <= 0x23FF_FFFF then Some((Flash, address - 0x2000_0000))
        else if 0x8000_0000 <= address && last <= 0xFFFF_FFFF then Some((Dram, address - 0x8000_0000))
        else None
  {
    hide BoardMap, Ordered, Contains;
    var board := new Board();
    r := board.CheckAccess(address, size);
    SameMembers(board.memoryMap, BoardMap());
    OnTheBoard();
    if r.Some? {
      var range :| (range, r.value.0) in board.memoryMap && Contains(range, address)
        && address + size - 1 <= range.end && r.value.1 == address - range.start;
      InRange(range, address);
    } else {
      NoRange(board.memoryMap, address, size);
    }
  }

  lemma SameMembers<X(!new)>(a: seq<X>, b: seq<X>)
    requires multiset(a) == multiset(b)
    ensures forall e :: e in a <==> e in b
  {
    forall e ensures e in a <==> e in b {
      assert (e in multiset(a)) == (e in multiset(b));
    }
  }

  lemma InRange(range: AddressRange, address: u32)
    ensures Contains(range, address) <==> range.start <= address <= range.end
  {
  }

  lemma NoRange(entries: seq<Entry<Resource>>, address: u32, size: nat)
    requires size > 0 && forall e :: e in entries ==> !(Contains(e.0, address) && address + size - 1 <= e.0.end)
    ensures forall e :: e in entries ==> !(e.0.start <= address && address + size - 1 <= e.0.end)
  {
  }

  lemma OnTheBoard()
    ensures forall e :: e in BoardMap() <==>
      || e == (Bounds(0x1000, 0xFFFF), Mrom) || e == (Bounds(0x10_0000, 0x10_0003), PowerDown)
      || e == (Bounds(0x200_0000, 0x200_FFFF), Clint) || e == (Bounds(0xC00_0000, 0xC20_0FFF), Plic)
      || e == (Bounds(0x1000_0000, 0x1000_00FF), Uart0) || e == (Bounds(0x2000_0000, 0x23FF_FFFF), Flash)
      || e == (Bounds(0x8000_0000, 0xFFFF_FFFF), Dram)
  {
  }
}
