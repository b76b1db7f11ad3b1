/** Iteration over a range of an array of HEAD, with the bounds of a range expression. */
module Accessors {
  import opened Options
  import opened Slabs
  import opened RadixTree
  import opened Chunks
  import opened ArrayStorages
  import opened Instances
  import opened Totals
  import opened Timelines
  import opened Storages
  import opened Heads
  import opened SpaceTimes

  datatype Bound = Unbounded | Included(at: nat) | Excluded(at: nat)

  function RangeStart(lo: Bound): nat {
    match lo
    case Unbounded => 0
    case Included(s) => s
    case Excluded(s) => s + 1
  }

  function CheckedSub(a: nat, b: nat): Option<nat> {
    if a < b then None else Some(a - b)
  }

  /** The length that is computed for a range; None when a subtraction would underflow. */
  function RangeLength(lo: Bound, hi: Bound, size: nat): Option<nat> {
    match hi
    case Unbounded => CheckedSub(size, RangeStart(lo))
    case Included(e) => (match CheckedSub(e, RangeStart(lo)) case Some(n) => Some(n + 1) case None => None)
    case Excluded(e) => CheckedSub(e, RangeStart(lo))
  }

  ghost function IterRange<V, T>(st: SpaceTime<V, T>, id: nat, lo: Bound, hi: Bound): Lookup<Option<seq<T>>>
    requires st.Valid()
    reads st, st.storage.tables, st.storage.arrays.dataTable, st.storage.arrays.pageTables
  {
    var s := HeadOf(st);
    if id >= |s.instances| then InvalidId
    else
      var inst := s.instances[id];
      match RangeLength(lo, hi, inst.size)
      case None => Found(None)
      case Some(len) =>
        HeadInstance(st, id);
        Found(st.storage.arrays.IterRange(inst, LiveArrays(st.head, st.snapshots, None), RangeStart(lo), len))
  }

  ghost function HeadOf<V, T>(st: SpaceTime<V, T>): Snapshot
    requires st.Valid()
    reads st, st.storage.tables, st.storage.arrays.dataTable, st.storage.arrays.pageTables
  {
    HeadReads(st.storage.Objects(), st.storage.Arrays(), st.head, st.snapshots, st.model, None, None);
    Current(st.head, st.snapshots)
  }

  lemma HeadInstance<V, T>(st: SpaceTime<V, T>, id: nat)
    requires st.Valid() && id < |HeadOf(st).instances|
    ensures var inst, live, tree := HeadOf(st).instances[id], LiveArrays(st.head, st.snapshots, None),
      st.storage.Arrays();
      && st.storage.arrays.Valid() && Sound(tree, live) && PtrsOf(inst) <= live
      && |inst.pages| == DivCeil(inst.size, Size(tree))
      && id < |st.model.head.arrays| && StandsFor(tree, inst, st.model.head.arrays[id])
  {
    hide Consistent, Sound, Covers, WellFormed, Separate, AllValid, LevelsOf, At, Through, LiveObjects, LiveArrays,
         PtrsOf,
         DivCeil, Size;
    HeadReads(st.storage.Objects(), st.storage.Arrays(), st.head, st.snapshots, st.model, None, None);
    TotalMember(HeadOf(st).instances, PtrsOf, id);
    assert StandsFor(st.storage.Arrays(), HeadOf(st).instances[id], st.model.head.arrays[id]);
  }

  /** A range yields the items between its bounds, in order; it fails exactly when it starts after its
      end, ends after the array, or is inclusive and empty. */
  lemma IterRangeYields<V, T>(st: SpaceTime<V, T>, id: nat, lo: Bound, hi: Bound)
    requires st.Valid()
    ensures IterRange(st, id, lo, hi) ==
      if id >= |st.model.head.arrays| then InvalidId
      else
        var items := st.model.head.arrays[id].items;
        var start := match lo case Unbounded => 0 case Included(s) => s case Excluded(s) => s + 1;
        var end := match hi case Unbounded => |items| case Included(e) => e + 1 case Excluded(e) => e;
        if start <= end <= |items| && (hi.Included? ==> start < end) then Found(Some(items[start..end]))
          else Found(None)
  {
    hide Consistent, Sound, Covers, WellFormed, Separate, AllValid, LevelsOf, At, Through, LiveObjects, LiveArrays,
         PtrsOf,
         DivCeil, Size, IterRow, ItemAt;
    HeadReads(st.storage.Objects(), st.storage.Arrays(), st.head, st.snapshots, st.model, None, None);
    var s := HeadOf(st);
    if id < |s.instances| {
      HeadInstance(st, id);
      var inst, v := s.instances[id], st.model.head.arrays[id];
      if RangeLength(lo, hi, inst.size).Some? {
        st.storage.arrays.IterRangeYields(inst, LiveArrays(st.head, st.snapshots, None), v, RangeStart(lo),
                                          RangeLength(lo, hi, inst.size).value);
      }
    }
  }
}
