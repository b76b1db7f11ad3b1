/** HEAD and the arena of snapshots over one shared storage, as values, and the timeline of plain
    contents they stand for. */
module Heads {
  import opened Options
  import opened Slabs
  import opened RadixTree
  import opened Instances
  import opened Totals
  import opened Timelines
  import opened Storages

  datatype Head = Dirty(snapshot: Snapshot) | Checkout(id: SnapshotId)

  // ---------- What the allocator stands for ----------

  function HeadSlot(head: Head): Option<Snapshot> {
    if head.Dirty? then Some(head.snapshot) else None
  }

  /** All owners of pointers: the snapshots, a dirty HEAD, and what was made but is not in HEAD yet. */
  function Slots(head: Head, snapshots: seq<Option<Snapshot>>, pending: Option<Snapshot>): seq<Option<Snapshot>> {
    snapshots + [HeadSlot(head), pending]
  }

  function Values<V, T>(m: Timeline<Contents<V, T>>, pending: Option<Contents<V, T>>): seq<Option<Contents<V, T>>> {
    m.snapshots + [if m.checkedOut.None? then Some(m.head) else None, pending]
  }

  ghost predicate Agrees<V, T>(head: Head, snapshots: seq<Option<Snapshot>>, m: Timeline<Contents<V, T>>) {
    && m.Valid() && |m.snapshots| == |snapshots|
    && m.checkedOut == if head.Dirty? then None else Some(head.id)
  }

  ghost predicate Models<V, T>(objs: Slab<V>, tree: Levels<T>, head: Head, snapshots: seq<Option<Snapshot>>,
                               m: Timeline<Contents<V, T>>,
                               pending: Option<Snapshot>, pendingValue: Option<Contents<V, T>>) {
    Agrees(head, snapshots, m) && Consistent(objs, tree, Slots(head, snapshots, pending), Values(m, pendingValue))
  }

  function LiveObjects(head: Head, snapshots: seq<Option<Snapshot>>, pending: Option<Snapshot>): multiset<Ptr> {
    Total(Slots(head, snapshots, pending), ObjectPtrs)
  }

  function LiveArrays(head: Head, snapshots: seq<Option<Snapshot>>, pending: Option<Snapshot>): multiset<Ptr> {
    Total(Slots(head, snapshots, pending), ArrayPtrs)
  }

  predicate HasHead(head: Head, snapshots: seq<Option<Snapshot>>) {
    head.Checkout? ==> head.id < |snapshots| && snapshots[head.id].Some?
  }

  /** The snapshot that HEAD reads from. */
  function Current(head: Head, snapshots: seq<Option<Snapshot>>): Snapshot
    requires HasHead(head, snapshots)
  {
    if head.Dirty? then head.snapshot else snapshots[head.id].value
  }

  lemma HeadReads<V, T>(objs: Slab<V>, tree: Levels<T>, head: Head, snapshots: seq<Option<Snapshot>>,
                        m: Timeline<Contents<V, T>>,
                        pending: Option<Snapshot>, pv: Option<Contents<V, T>>)
    requires Models(objs, tree, head, snapshots, m, pending, pv)
    ensures HasHead(head, snapshots) && Represents(objs, tree, Current(head, snapshots), m.head)
    ensures ObjectPtrs(Some(Current(head, snapshots))) <= LiveObjects(head, snapshots, pending)
    ensures ArrayPtrs(Some(Current(head, snapshots))) <= LiveArrays(head, snapshots, pending)
    ensures Covers(objs, LiveObjects(head, snapshots, pending)) && Sound(tree, LiveArrays(head, snapshots, pending))
      && WellFormed(objs)
  {
    hide Sound, Covers, WellFormed, Represents, Total;
    var slots := Slots(head, snapshots, pending);
    var i := if head.Dirty? then |snapshots| else head.id;
    assert slots[i] == if head.Dirty? then HeadSlot(head) else snapshots[head.id];
    assert Values(m, pv)[i] == Some(m.head);
    SlotIsLive(slots, i);
  }

  // ---------- Steps of HEAD and the snapshots ----------

  /** HEAD becomes a copy of the snapshot it was checked out from. */
  lemma HeadDirtied<V, T>(objs: Slab<V>, tree: Levels<T>, objs': Slab<V>, tree': Levels<T>, head: Head,
                          snapshots: seq<Option<Snapshot>>,
                          m: Timeline<Contents<V, T>>, pending: Option<Snapshot>, pv: Option<Contents<V, T>>)
    requires Models(objs, tree, head, snapshots, m, pending, pv) && head.Checkout? && HasHead(head, snapshots)
    requires var s := Some(Current(head, snapshots));
      && WellFormed(objs') && Covers(objs', LiveObjects(head, snapshots, pending) + ObjectPtrs(s))
      && Sound(tree', LiveArrays(head, snapshots, pending) + ArrayPtrs(s))
    requires (forall q: Ptr :: ItemAt(objs', q) == ItemAt(objs, q)) && Unchanged(tree, tree')
    ensures Models(objs', tree', Dirty(Current(head, snapshots)), snapshots, m.Change(m.head), pending, pv)
  {
    hide Sound, Covers, WellFormed, Represents, Total, Unchanged, ItemAt, Consistent;
    var slots, values := Slots(head, snapshots, pending), Values(m, pv);
    assert slots[head.id] == snapshots[head.id];
    CopySlot(objs, tree, objs', tree', slots, values, |snapshots|, head.id);
    assert slots[|snapshots| := slots[head.id]] == Slots(Dirty(Current(head, snapshots)), snapshots, pending);
    assert values[|snapshots| := values[head.id]] == Values(m.Change(m.head), pv);
  }

  /** A copy of HEAD becomes the newest snapshot, and HEAD is checked out from it. The pointers of a
      HEAD that was dirty stay accounted for but are not given up. */
  lemma SnapshotMade<V, T>(objs: Slab<V>, tree: Levels<T>, objs': Slab<V>, tree': Levels<T>, head: Head,
                           snapshots: seq<Option<Snapshot>>,
                           m: Timeline<Contents<V, T>>)
    requires Models(objs, tree, head, snapshots, m, None, None) && HasHead(head, snapshots)
    requires var s := Some(Current(head, snapshots));
      && WellFormed(objs') && Covers(objs', LiveObjects(head, snapshots, None) + ObjectPtrs(s))
      && Sound(tree', LiveArrays(head, snapshots, None) + ArrayPtrs(s))
    requires (forall q: Ptr :: ItemAt(objs', q) == ItemAt(objs, q)) && Unchanged(tree, tree')
    ensures Models(objs', tree', Head.Checkout(|snapshots|), snapshots + [Some(Current(head, snapshots))],
      m.MakeSnapshot(), None, None)
  {
    hide Sound, Covers, WellFormed, Represents, Total, Unchanged, ItemAt, Consistent;
    var n, s := |snapshots|, Current(head, snapshots);
    var slots, values := Slots(head, snapshots, None), Values(m, None);
    var j := if head.Dirty? then n else head.id;
    assert slots[j] == Some(s) && values[j] == Some(m.head) && slots[n + 1] == None;
    CopySlot(objs, tree, objs', tree', slots, values, n + 1, j);
    var slots', values' := slots[n + 1 := Some(s)], values[n + 1 := Some(m.head)];
    ForgetSlot(objs', tree', slots', values', n);
    MoveSlot(objs', tree', slots'[n := None], values'[n := None], n, n + 1);
    var slots'', values'' := slots[n := Some(s)], values[n := Some(m.head)];
    assert slots'[n := None][n := Some(s)][n + 1 := None] == slots'';
    assert values'[n := None][n := Some(m.head)][n + 1 := None] == values'';
    GrowSlots(objs', tree', slots'', values'');
    assert slots'' + [None] == Slots(Head.Checkout(n), snapshots + [Some(s)], None);
    assert values'' + [None] == Values(m.MakeSnapshot(), None);
  }

  /** An owner disappears without giving up its pointers. */
  lemma ForgetSlot<V, T>(objs: Slab<V>, tree: Levels<T>, slots: seq<Option<Snapshot>>, values: seq<Option<Contents<V,
                         T>>>,
                         i: nat)
    requires Consistent(objs, tree, slots, values) && i < |slots|
    ensures Consistent(objs, tree, slots[i := None], values[i := None])
  {
    hide Sound, WellFormed, Represents, Total, TotalBut, ItemAt;
    TotalSplit(slots, ObjectPtrs, i, None);
    TotalSplit(slots, ArrayPtrs, i, None);
    assert TotalBut(slots, ObjectPtrs, i) <= Total(slots, ObjectPtrs)
      && TotalBut(slots, ArrayPtrs, i) <= Total(slots, ArrayPtrs);
    SoundFewer(tree, Total(slots, ArrayPtrs), TotalBut(slots, ArrayPtrs, i));
    SameItemsRefl(objs, TotalBut(slots, ObjectPtrs, i));
    SameReadsRefl(tree, TotalBut(slots, ArrayPtrs, i));
    EmptySlot(objs, tree, objs, tree, slots, values, i);
  }

  /** A snapshot that HEAD was checked out from becomes a dirty HEAD when it is dropped. */
  lemma HeadInherits<V, T>(objs: Slab<V>, tree: Levels<T>, head: Head, snapshots: seq<Option<Snapshot>>,
                           m: Timeline<Contents<V, T>>)
    requires Models(objs, tree, head, snapshots, m, None, None) && head.Checkout? && HasHead(head, snapshots)
    ensures Models(objs, tree, Dirty(Current(head, snapshots)), snapshots[head.id := None], m.DropSnapshot(head.id),
      None, None)
  {
    hide Consistent;
    var n := |snapshots|;
    var slots, values := Slots(head, snapshots, None), Values(m, None);
    assert slots[head.id] == snapshots[head.id] && values[head.id] == Some(m.head) && slots[n] == None;
    MoveSlot(objs, tree, slots, values, n, head.id);
    assert slots[n := snapshots[head.id]][head.id := None]
      == Slots(Dirty(Current(head, snapshots)), snapshots[head.id := None], None);
    assert values[n := Some(m.head)][head.id := None] == Values(m.DropSnapshot(head.id), None);
  }

  /** Any other snapshot is deleted when it is dropped. */
  lemma SnapshotDropped<V, T>(objs: Slab<V>, tree: Levels<T>, objs': Slab<V>, tree': Levels<T>, head: Head,
                              snapshots: seq<Option<Snapshot>>,
                              m: Timeline<Contents<V, T>>, id: SnapshotId)
    requires Models(objs, tree, head, snapshots, m, None, None) && id < |snapshots| && snapshots[id].Some?
      && head != Head.Checkout(id)
    requires var slots := Slots(head, snapshots, None);
      Deleted(objs, tree, objs', tree', TotalBut(slots, ObjectPtrs, id), TotalBut(slots, ArrayPtrs, id))
    ensures m.Has(id) && Models(objs', tree', head, snapshots[id := None], m.DropSnapshot(id), None, None)
  {
    hide Represents, WellFormed, Covers, Sound, SameItems, SameReads, Height, Total, TotalBut;
    var slots, values := Slots(head, snapshots, None), Values(m, None);
    assert slots[id] == snapshots[id] && values[id] == m.snapshots[id];
    EmptySlot(objs, tree, objs', tree', slots, values, id);
    assert slots[id := None] == Slots(head, snapshots[id := None], None);
    assert values[id := None] == Values(m.DropSnapshot(id), None);
  }

  /** A dirty HEAD is given up for a snapshot. */
  lemma HeadReplaced<V, T>(objs: Slab<V>, tree: Levels<T>, objs': Slab<V>, tree': Levels<T>, head: Head,
                           snapshots: seq<Option<Snapshot>>,
                           m: Timeline<Contents<V, T>>, id: SnapshotId)
    requires Models(objs, tree, head, snapshots, m, None, None) && m.Has(id)
    requires var n, slots := |snapshots|, Slots(head, snapshots, None);
      Deleted(objs, tree, objs', tree', TotalBut(slots, ObjectPtrs, n), TotalBut(slots, ArrayPtrs, n))
    ensures Models(objs', tree', Head.Checkout(id), snapshots, m.Checkout(id), None, None)
  {
    hide Represents, WellFormed, Covers, Sound, SameItems, SameReads, Height, Total, TotalBut;
    var n := |snapshots|;
    var slots, values := Slots(head, snapshots, None), Values(m, None);
    EmptySlot(objs, tree, objs', tree', slots, values, n);
    assert slots[n := None] == Slots(Head.Checkout(id), snapshots, None);
    assert values[n := None] == Values(m.Checkout(id), None);
  }

  lemma HeadSwitched<V, T>(objs: Slab<V>, tree: Levels<T>, head: Head, snapshots: seq<Option<Snapshot>>,
                           m: Timeline<Contents<V, T>>, id: SnapshotId)
    requires Models(objs, tree, head, snapshots, m, None, None) && head.Checkout? && m.Has(id)
    ensures Models(objs, tree, Head.Checkout(id), snapshots, m.Checkout(id), None, None)
  {
  }

  lemma SnapshotExists<V, T>(objs: Slab<V>, tree: Levels<T>, head: Head, snapshots: seq<Option<Snapshot>>,
                             m: Timeline<Contents<V, T>>, id: SnapshotId)
    requires Models(objs, tree, head, snapshots, m, None, None)
    ensures m.Has(id) <==> id < |snapshots| && snapshots[id].Some?
  {
    hide Represents, WellFormed, Covers, Sound, Total;
    var slots, values := Slots(head, snapshots, None), Values(m, None);
    if id < |snapshots| {
      assert slots[id] == snapshots[id] && values[id] == m.snapshots[id];
    }
  }

  ghost predicate Deleted<V, T>(objs: Slab<V>, tree: Levels<T>, objs': Slab<V>, tree': Levels<T>,
                                liveObjs: multiset<Ptr>, liveArrays: multiset<Ptr>) {
    && WellFormed(objs') && Covers(objs', liveObjs) && Sound(tree', liveArrays)
    && SameItems(objs, objs', liveObjs) && Height(tree) == Height(tree') && SameReads(tree, tree', liveArrays)
  }

  // ---------- Something new, on its way into HEAD ----------

  lemma ObjectMade<V, T>(objs: Slab<V>, objs': Slab<V>, tree: Levels<T>, head: Head, snapshots: seq<Option<Snapshot>>,
                         m: Timeline<Contents<V, T>>, p: Ptr, v: V)
    requires Models(objs, tree, head, snapshots, m, None, None)
    requires var live := LiveObjects(head, snapshots, None);
      WellFormed(objs') && Covers(objs', live + multiset{p}) && SameItems(objs, objs', live)
        && ItemAt(objs', p) == Some(v)
    ensures Models(objs', tree, head, snapshots, m, Some(Snapshot([p], [])), Some(Contents([v], [])))
  {
    hide WellFormed, Sound, ItemAt, Total, TotalBut, StandsFor;
    var n := |snapshots| + 1;
    var slots, values := Slots(head, snapshots, None), Values(m, None);
    var s, c: Contents<V, T> := Snapshot([p], []), Contents([v], []);
    NoneBut(slots, n);
    assert ObjectPtrs(Some(s)) == multiset{p};
    assert ArrayPtrs(Some(s)) == multiset{} by { NoTotal(s); }
    assert Represents(objs', tree, s, c);
    assert TotalBut(slots, ArrayPtrs, n) + multiset{} == TotalBut(slots, ArrayPtrs, n);
    SameReadsRefl(tree, TotalBut(slots, ArrayPtrs, n));
    ReplaceSlot(objs, tree, objs', tree, slots, values, n, Some(s), Some(c));
    assert slots[n := Some(s)] == Slots(head, snapshots, Some(s));
    assert values[n := Some(c)] == Values(m, Some(c));
  }

  lemma NoTotal(s: Snapshot)
    requires s.instances == []
    ensures ArrayPtrs(Some(s)) == multiset{}
  {
  }

  lemma NoneBut(slots: seq<Option<Snapshot>>, i: nat)
    requires i < |slots| && slots[i].None?
    ensures
      && TotalBut(slots, ObjectPtrs, i) == Total(slots, ObjectPtrs)
      && TotalBut(slots, ArrayPtrs, i) == Total(slots, ArrayPtrs)
  {
    TotalSplit(slots, ObjectPtrs, i, None);
    TotalSplit(slots, ArrayPtrs, i, None);
  }

  lemma ArrayMade<V, T>(objs: Slab<V>, tree: Levels<T>, tree': Levels<T>, head: Head, snapshots: seq<Option<Snapshot>>,
                        m: Timeline<Contents<V, T>>,
                        inst: Instance, v: ArrayValue<T>)
    requires Models(objs, tree, head, snapshots, m, None, None)
      && Updated(tree, tree', LiveArrays(head, snapshots, None), inst, v)
    ensures Models(objs, tree', head, snapshots, m, Some(Snapshot([], [inst])), Some(Contents([], [v])))
  {
    hide WellFormed, Covers, Sound, ItemAt, Total, TotalBut, StandsFor, PtrsOf, At, Height;
    var n := |snapshots| + 1;
    var slots, values := Slots(head, snapshots, None), Values(m, None);
    var s, c: Contents<V, T> := Snapshot([], [inst]), Contents([], [v]);
    NoneBut(slots, n);
    assert ArrayPtrs(Some(s)) == PtrsOf(inst) by { OneTotal(inst); }
    assert ObjectPtrs(Some(s)) == multiset{};
    assert Represents(objs, tree', s, c);
    assert TotalBut(slots, ObjectPtrs, n) + multiset{} == TotalBut(slots, ObjectPtrs, n);
    SameItemsRefl(objs, TotalBut(slots, ObjectPtrs, n));
    ReplaceSlot(objs, tree, objs, tree', slots, values, n, Some(s), Some(c));
    assert slots[n := Some(s)] == Slots(head, snapshots, Some(s));
    assert values[n := Some(c)] == Values(m, Some(c));
  }

  lemma OneTotal(inst: Instance)
    ensures Total([inst], PtrsOf) == PtrsOf(inst)
  {
  }

  lemma AdoptObject<V, T>(objs: Slab<V>, tree: Levels<T>, snapshots: seq<Option<Snapshot>>, m: Timeline<Contents<V, T>>,
                          s: Snapshot, p: Ptr, v: V)
    requires Models(objs, tree, Dirty(s), snapshots, m, Some(Snapshot([p], [])), Some(Contents([v], [])))
    ensures Models(objs, tree, Dirty(s.(tablePtrs := s.tablePtrs + [p])), snapshots,
      m.Change(m.head.(objects := m.head.objects + [v])), None, None)
  {
    hide WellFormed, Sound, ItemAt, Total, TotalBut, StandsFor, Covers;
    var n := |snapshots|;
    var pending, c: Contents<V, T> := Snapshot([p], []), Contents([v], []);
    var slots, values := Slots(Dirty(s), snapshots, Some(pending)), Values(m, Some(c));
    assert slots[n + 1] == Some(pending) && values[n + 1] == Some(c)
      && ItemAt(objs, pending.tablePtrs[0]) == Some(c.objects[0]);
    TotalSplit(slots, ObjectPtrs, n + 1, None);
    assert ObjectPtrs(Some(pending)) == multiset{p};
    ForgetSlot(objs, tree, slots, values, n + 1);
    var slots', values' := slots[n + 1 := None], values[n + 1 := None];
    assert Total(slots', ObjectPtrs) + multiset{p} == Total(slots, ObjectPtrs);
    AddObject(objs, tree, slots', values', n, p, v);
    assert slots'[n := Some(s.(tablePtrs := s.tablePtrs + [p]))]
      == Slots(Dirty(s.(tablePtrs := s.tablePtrs + [p])), snapshots, None);
    assert values'[n := Some(m.head.(objects := m.head.objects + [v]))]
      == Values(m.Change(m.head.(objects := m.head.objects + [v])), None);
  }

  lemma AdoptArray<V, T>(objs: Slab<V>, tree: Levels<T>, snapshots: seq<Option<Snapshot>>, m: Timeline<Contents<V, T>>,
                         s: Snapshot, inst: Instance, v: ArrayValue<T>)
    requires Models(objs, tree, Dirty(s), snapshots, m, Some(Snapshot([], [inst])), Some(Contents([], [v])))
    ensures Models(objs, tree, Dirty(s.(instances := s.instances + [inst])), snapshots,
      m.Change(m.head.(arrays := m.head.arrays + [v])), None, None)
  {
    hide WellFormed, Sound, ItemAt, Total, TotalBut, StandsFor, Covers, PtrsOf;
    var n := |snapshots|;
    var pending, c: Contents<V, T> := Snapshot([], [inst]), Contents([], [v]);
    var slots, values := Slots(Dirty(s), snapshots, Some(pending)), Values(m, Some(c));
    assert slots[n + 1] == Some(pending) && values[n + 1] == Some(c)
      && StandsFor(tree, pending.instances[0], c.arrays[0]);
    TotalSplit(slots, ArrayPtrs, n + 1, None);
    assert ArrayPtrs(Some(pending)) == PtrsOf(inst) by { OneTotal(inst); }
    ForgetSlot(objs, tree, slots, values, n + 1);
    var slots', values' := slots[n + 1 := None], values[n + 1 := None];
    assert Total(slots', ArrayPtrs) + PtrsOf(inst) == Total(slots, ArrayPtrs);
    AddArray(objs, tree, slots', values', n, inst, v);
    assert slots'[n := Some(s.(instances := s.instances + [inst]))]
      == Slots(Dirty(s.(instances := s.instances + [inst])), snapshots, None);
    assert values'[n := Some(m.head.(arrays := m.head.arrays + [v]))]
      == Values(m.Change(m.head.(arrays := m.head.arrays + [v])), None);
  }

  // ---------- Changes of a dirty HEAD ----------

  lemma HeadObjectWritten<V, T>(objs: Slab<V>, objs': Slab<V>, tree: Levels<T>, snapshots: seq<Option<Snapshot>>,
                                m: Timeline<Contents<V, T>>, s: Snapshot,
                                k: nat, q: Ptr, v: V)
    requires Models(objs, tree, Dirty(s), snapshots, m, None, None) && k < |s.tablePtrs|
    requires var live := LiveObjects(Dirty(s), snapshots, None) - multiset{s.tablePtrs[k]};
      WellFormed(objs') && Covers(objs', live + multiset{q}) && SameItems(objs, objs', live)
        && ItemAt(objs', q) == Some(v)
    ensures k < |m.head.objects|
    ensures Models(objs', tree, Dirty(s.(tablePtrs := s.tablePtrs[k := q])), snapshots,
      m.Change(m.head.(objects := m.head.objects[k := v])), None, None)
  {
    hide WellFormed, Sound, ItemAt, Total, TotalBut, StandsFor, Covers, SameItems;
    var n := |snapshots|;
    var slots, values := Slots(Dirty(s), snapshots, None), Values(m, None);
    assert slots[n] == Some(s) && values[n] == Some(m.head);
    ChangeObject(objs, objs', tree, slots, values, n, k, q, v);
    var s', c' := s.(tablePtrs := s.tablePtrs[k := q]), m.head.(objects := m.head.objects[k := v]);
    assert slots[n := Some(s')] == Slots(Dirty(s'), snapshots, None);
    assert values[n := Some(c')] == Values(m.Change(c'), None);
  }

  /** All live pointers into the arrays except those of instance `k` of a dirty HEAD. */
  function OtherArrays(snapshots: seq<Option<Snapshot>>, s: Snapshot, k: nat): multiset<Ptr>
    requires k < |s.instances|
  {
    TotalBut(Slots(Dirty(s), snapshots, None), ArrayPtrs, |snapshots|) + TotalBut(s.instances, PtrsOf, k)
  }

  lemma HeadArray<V, T>(objs: Slab<V>, tree: Levels<T>, snapshots: seq<Option<Snapshot>>, m: Timeline<Contents<V, T>>,
                        s: Snapshot, k: nat)
    requires Models(objs, tree, Dirty(s), snapshots, m, None, None) && k < |s.instances|
    ensures k < |m.head.arrays| && StandsFor(tree, s.instances[k], m.head.arrays[k])
    ensures Sound(tree, OtherArrays(snapshots, s, k) + PtrsOf(s.instances[k]))
  {
    hide WellFormed, Sound, ItemAt, Total, TotalBut, StandsFor, Covers, PtrsOf;
    var n := |snapshots|;
    var slots, values := Slots(Dirty(s), snapshots, None), Values(m, None);
    assert slots[n] == Some(s) && values[n] == Some(m.head);
    TotalSplit(slots, ArrayPtrs, n, None);
    TotalSplit(s.instances, PtrsOf, k, s.instances[k]);
    assert OtherArrays(snapshots, s, k) + PtrsOf(s.instances[k]) == Total(slots, ArrayPtrs);
  }

  lemma HeadArrayWritten<V, T>(objs: Slab<V>, tree: Levels<T>, tree': Levels<T>, snapshots: seq<Option<Snapshot>>,
                               m: Timeline<Contents<V, T>>, s: Snapshot,
                               k: nat, inst: Instance, v: ArrayValue<T>)
    requires Models(objs, tree, Dirty(s), snapshots, m, None, None) && k < |s.instances|
    requires Updated(tree, tree', OtherArrays(snapshots, s, k), inst, v)
    ensures k < |m.head.arrays|
    ensures Models(objs, tree', Dirty(s.(instances := s.instances[k := inst])), snapshots,
      m.Change(m.head.(arrays := m.head.arrays[k := v])), None, None)
  {
    hide WellFormed, Sound, ItemAt, Total, TotalBut, StandsFor, Covers, PtrsOf, Updated;
    var n := |snapshots|;
    var slots, values := Slots(Dirty(s), snapshots, None), Values(m, None);
    assert slots[n] == Some(s) && values[n] == Some(m.head);
    ChangeArray(objs, tree, tree', slots, values, n, k, OtherArrays(snapshots, s, k), inst, v);
    var s', c' := s.(instances := s.instances[k := inst]), m.head.(arrays := m.head.arrays[k := v]);
    assert slots[n := Some(s')] == Slots(Dirty(s'), snapshots, None);
    assert values[n := Some(c')] == Values(m.Change(c'), None);
  }

  // ---------- HEAD at hand ----------

  lemma HeadLength<V, T>(objs: Slab<V>, tree: Levels<T>, head: Head, snapshots: seq<Option<Snapshot>>,
                         m: Timeline<Contents<V, T>>, s: Snapshot,
                         pending: Option<Snapshot>, pv: Option<Contents<V, T>>)
    requires Models(objs, tree, head, snapshots, m, pending, pv) && head == Head.Dirty(s)
    ensures |s.tablePtrs| == |m.head.objects| && |s.instances| == |m.head.arrays|
  {
    hide Sound, Covers, WellFormed, StandsFor, ItemAt, Total;
    HeadReads(objs, tree, head, snapshots, m, pending, pv);
  }

  lemma TakeOut(s: Snapshot, id: nat, live: multiset<Ptr>)
    requires id < |s.tablePtrs| && ObjectPtrs(Some(s)) <= live
    ensures live - multiset{s.tablePtrs[id]} + multiset{s.tablePtrs[id]} == live
  {
  }

  lemma NothingYet<V, T>(objs: Slab<V>, tree: Levels<T>)
    requires WellFormed(objs) && Covers(objs, multiset{}) && Sound(tree, multiset{})
    ensures Models(objs, tree, Dirty(Snapshot([], [])), [], Timeline(Contents([], []), None, []), None, None)
  {
    hide Sound, Covers, WellFormed, Total, ObjectPtrs, ArrayPtrs;
    var slots := [Some(Snapshot([], [])), None];
    assert Slots(Dirty(Snapshot([], [])), [], None) == slots;
    NothingOwned();
  }

  lemma NothingOwned()
    ensures Total([Some(Snapshot([], [])), None], ObjectPtrs) == multiset{}
      && Total([Some(Snapshot([], [])), None], ArrayPtrs) == multiset{}
  {
  }
}
