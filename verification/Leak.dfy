/** Which references leak: counts that stand for no pointer of a snapshot, of HEAD or of a page. */
module Leaks {
  import opened Options
  import opened Slabs
  import opened RadixTree
  import opened Rooms
  import opened Balances
  import opened Chunks
  import opened Instances
  import opened Totals
  import opened Timelines
  import opened Storages
  import opened Heads
  import opened Commands
  import opened Needs

  /** Number of pointers of a snapshot: one for each object, and one for each top-level page of an array
      and for the page it is reset to. */
  function Pointers<V, T>(height: nat, c: Contents<V, T>): nat {
    |c.objects| + PointersOf(height, c.arrays)
  }

  function OwnedBy<V, T>(height: nat, snapshots: seq<Option<Contents<V, T>>>): nat {
    if snapshots == [] then 0
    else
      var last := snapshots[|snapshots| - 1];
      OwnedBy(height, snapshots[..|snapshots| - 1]) + if last.Some? then Pointers(height, last.value) else 0
  }

  /** Number of pointers of all snapshots and of a dirty HEAD. */
  function Owned<V, T>(height: nat, m: Timeline<Contents<V, T>>): nat {
    OwnedBy(height, m.snapshots) + if m.checkedOut.None? then Pointers(height, m.head) else 0
  }

  /** All reference counts, less the pointers in pages, in snapshots and in HEAD. */
  ghost function Leak<V, T>(st: State<V, T>): int {
    RefSum(st.objs.cells) + Balance(st.tree) - Owned(Height(st.tree), st.model)
  }

  /** What a command leaks, as the code has it: making a snapshot forgets the pointers of a dirty HEAD, and
      giving up an array forgets the pointer to the page it is reset to. */
  function LeakedBy<V, T>(height: nat, m: Timeline<Contents<V, T>>, command: Command<V, T>): nat {
    match command
    case MakeSnapshot => if m.checkedOut.None? then Pointers(height, m.head) else 0
    case DropSnapshot(id) => if m.Has(id) && m.checkedOut != Some(id) then |m.snapshots[id].value.arrays| else 0
    case Checkout(id) => if m.Has(id) && m.checkedOut.None? then |m.head.arrays| else 0
    case _ => 0
  }

  /** Of the references that the command made and gave up, exactly these leak. */
  ghost predicate Conserves<V, T>(a: State<V, T>, command: Command<V, T>, b: State<V, T>) {
    Leak(b) == Leak(a) + LeakedBy(Height(a.tree), a.model, command)
  }

  // ---------- Counting pointers ----------

  lemma CountPointers<V, T>(objs: Slab<V>, tree: Levels<T>, s: Snapshot, c: Contents<V, T>)
    requires Represents(objs, tree, s, c)
    ensures |ObjectPtrs(Some(s))| == |c.objects| && |ArrayPtrs(Some(s))| == PointersOf(Height(tree), c.arrays)
    ensures |s.instances| == |c.arrays|
  {
    hide At, Through, Total, ItemAt, Height, CopyRefs, CopyBound, PagesOf;
    CopyWithin(objs, tree, s, c);
    PointersOfInstances(Height(tree), s.instances, c.arrays);
  }

  lemma {:induction false} OwnedUpdate<V, T>(height: nat, snapshots: seq<Option<Contents<V, T>>>, id: nat)
    requires id < |snapshots| && snapshots[id].Some?
    ensures OwnedBy(height, snapshots[id := None]) + Pointers(height, snapshots[id].value) == OwnedBy(height, snapshots)
  {
    hide Pointers;
    var n := |snapshots| - 1;
    if id < n {
      assert snapshots[id := None][..n] == snapshots[..n][id := None];
      OwnedUpdate(height, snapshots[..n], id);
    } else {
      assert snapshots[id := None][..n] == snapshots[..n];
    }
  }

  lemma OwnedAppend<V, T>(height: nat, snapshots: seq<Option<Contents<V, T>>>, c: Contents<V, T>)
    ensures OwnedBy(height, snapshots + [Some(c)]) == OwnedBy(height, snapshots) + Pointers(height, c)
  {
    hide Pointers;
    assert (snapshots + [Some(c)])[..|snapshots|] == snapshots;
  }

  lemma PointersAppend<T>(height: nat, arrays: seq<ArrayValue<T>>, v: ArrayValue<T>)
    ensures PointersOf(height, arrays + [v]) == PointersOf(height, arrays) + PagesOf(height, |v.items|) + 1
  {
    hide PagesOf;
    assert (arrays + [v])[..|arrays|] == arrays;
  }

  lemma {:induction false} PointersUpdate<T>(height: nat, arrays: seq<ArrayValue<T>>, id: nat, v: ArrayValue<T>)
    requires id < |arrays| && |v.items| == |arrays[id].items|
    ensures PointersOf(height, arrays[id := v]) == PointersOf(height, arrays)
  {
    hide PagesOf;
    var n := |arrays| - 1;
    if id < n {
      assert arrays[id := v][..n] == arrays[..n][id := v];
      PointersUpdate(height, arrays[..n], id, v);
    } else {
      assert arrays[id := v][..n] == arrays[..n];
    }
  }

  // ---------- What leaks when ----------

  /** The pointers of all owners are as many as the timeline says. */
  lemma {:induction false} OwnersCount<V, T>(objs: Slab<V>, tree: Levels<T>, slots: seq<Option<Snapshot>>,
                                             values: seq<Option<Contents<V, T>>>)
    requires |values| == |slots|
    requires forall i :: 0 <= i < |slots| ==>
      && (slots[i].Some? <==> values[i].Some?)
      && (slots[i].Some? ==> Represents(objs, tree, slots[i].value, values[i].value))
    ensures |Total(slots, ObjectPtrs)| + |Total(slots, ArrayPtrs)| == OwnedBy(Height(tree), values)
  {
    hide Represents, ObjectPtrs, ArrayPtrs;
    if slots != [] {
      var n := |slots| - 1;
      OwnersCount(objs, tree, slots[..n], values[..n]);
      if slots[n].Some? {
        CountPointers(objs, tree, slots[n].value, values[n].value);
      } else {
        NonePoints(slots[n]);
      }
    }
  }

  lemma NonePoints(slot: Option<Snapshot>)
    requires slot.None?
    ensures |ObjectPtrs(slot)| == |ArrayPtrs(slot)| == 0
  {
  }

  lemma OwnedIsTotal<V, T>(st: State<V, T>)
    requires IsValid(st)
    ensures |LiveObjects(st.head, st.snapshots, None)| + |LiveArrays(st.head, st.snapshots, None)|
      == Owned(Height(st.tree), st.model)
  {
    hide Represents, WellFormed, Covers, Sound, ObjectPtrs, ArrayPtrs, Total, Pointers;
    var slots, values := Slots(st.head, st.snapshots, None), Values(st.model, None);
    OwnersCount(st.objs, st.tree, slots, values);
    var m, n := st.model, |st.model.snapshots|;
    var h := if m.checkedOut.None? then Some(m.head) else None;
    assert values[..n + 1] == m.snapshots + [h] && values[..n + 1][..n] == m.snapshots;
  }

  /** Nothing has leaked exactly when every object has as many references as there are pointers to it in
      snapshots and in HEAD, and so has every page, counting the pointers in pages. */
  lemma NothingLeaked<V, T>(st: State<V, T>)
    requires IsValid(st)
    ensures Leak(st) >= 0
    ensures Leak(st) == 0 <==>
      && (forall p :: 0 <= p < |st.objs.cells| ==>
        (if st.objs.cells[p].Used? then st.objs.cells[p].refs else 0) == LiveObjects(st.head, st.snapshots, None)[p])
      && Exact(st.tree, LiveArrays(st.head, st.snapshots, None))
  {
    hide Represents, WellFormed, Sound, Total, Owned, RefSum, Balance, Exact, LiveObjects, LiveArrays;
    HeadReads(st.objs, st.tree, st.head, st.snapshots, st.model, None, None);
    OwnedIsTotal(st);
    SumCovers(st.objs.cells, LiveObjects(st.head, st.snapshots, None));
    BalanceIsExact(st.tree, LiveArrays(st.head, st.snapshots, None));
    assert forall p :: 0 <= p < |st.objs.cells| ==>
      CellRefs(st.objs.cells[p]) == if st.objs.cells[p].Used? then st.objs.cells[p].refs else 0;
  }

  lemma NothingToLeak<V, T>(st: State<V, T>)
    requires st.objs == Slab([], 0) && Balance(st.tree) == 0 && st.model == Timeline(Contents([], []), None, [])
    ensures Leak(st) == 0
  {
    hide Balance;
  }

  // ---------- The single steps ----------

  /** HEAD is copied: the references that are made belong to the copy. */
  lemma CopyCounts<V, T>(a: State<V, T>, b: State<V, T>, pending: Option<Snapshot>, pv: Option<Contents<V, T>>)
    requires Models(a.objs, a.tree, a.head, a.snapshots, a.model, pending, pv) && HasHead(a.head, a.snapshots)
    requires var s := Some(Current(a.head, a.snapshots));
      b.objs == SlabCloned(a.objs, ObjectPtrs(s)) && b.tree == Cloned(a.tree, ArrayPtrs(s))
    ensures Height(b.tree) == Height(a.tree)
    ensures RefSum(b.objs.cells) + Balance(b.tree)
      == RefSum(a.objs.cells) + Balance(a.tree) + Pointers(Height(a.tree), a.model.head)
  {
    hide Represents, WellFormed, Total, RefSum, Balance, LiveObjects, LiveArrays, Models, SlabCloned, Cloned, Covers,
         Sound, ObjectPtrs, ArrayPtrs;
    HeadReads(a.objs, a.tree, a.head, a.snapshots, a.model, pending, pv);
    var s := Current(a.head, a.snapshots);
    CountPointers(a.objs, a.tree, s, a.model.head);
    ClonedTop(a.tree, ArrayPtrs(Some(s)), 0);
    PointersInUse(a.objs, a.tree, LiveObjects(a.head, a.snapshots, pending), LiveArrays(a.head, a.snapshots, pending),
                  ObjectPtrs(Some(s)), ArrayPtrs(Some(s)));
    SlabClonedSum(a.objs, ObjectPtrs(Some(s)));
    ClonedBalance(a.tree, ArrayPtrs(Some(s)));
  }

  lemma PointersInUse<V, T>(objs: Slab<V>, tree: Levels<T>, liveObjs: multiset<Ptr>, liveArrays: multiset<Ptr>,
                            x: multiset<Ptr>, y: multiset<Ptr>)
    requires Covers(objs, liveObjs) && Sound(tree, liveArrays) && x <= liveObjs && y <= liveArrays
    ensures (forall p :: p in x ==> InUse(objs, p)) && forall p :: p in y ==> TopInUse(tree, p)
  {
    hide Sound;
    forall p | p in y ensures TopInUse(tree, p) {
      LiveIsInUse(tree, liveArrays, p);
    }
  }

  lemma HeadKept<V, T>(a: State<V, T>, b: State<V, T>, pending: Option<Snapshot>, pv: Option<Contents<V, T>>)
    requires Models(a.objs, a.tree, a.head, a.snapshots, a.model, pending, pv) && a.head.Checkout?
    requires HasHead(a.head, a.snapshots)
    requires var s := Some(Current(a.head, a.snapshots));
      b.objs == SlabCloned(a.objs, ObjectPtrs(s)) && b.tree == Cloned(a.tree, ArrayPtrs(s))
    requires b.model == a.model.Change(a.model.head)
    ensures Leak(b) == Leak(a)
  {
    hide Consistent, RefSum, Balance, SlabCloned, Cloned, ObjectPtrs, ArrayPtrs, Pointers, OwnedBy;
    CopyCounts(a, b, pending, pv);
  }

  lemma SnapshotConserves<V, T>(a: State<V, T>, b: State<V, T>)
    requires IsValid(a) && HasHead(a.head, a.snapshots)
    requires var s := Some(Current(a.head, a.snapshots));
      b.objs == SlabCloned(a.objs, ObjectPtrs(s)) && b.tree == Cloned(a.tree, ArrayPtrs(s))
    requires b.model == a.model.MakeSnapshot()
    ensures Conserves(a, MakeSnapshot, b)
  {
    hide Models, RefSum, Balance, SlabCloned, Cloned, ObjectPtrs, ArrayPtrs, Pointers, OwnedBy;
    CopyCounts(a, b, None, None);
    OwnedAppend(Height(a.tree), a.model.snapshots, a.model.head);
  }

  /** An owner is given up: all its pointers are, but for one of each array. */
  lemma DropConserves<V, T>(a: State<V, T>, b: State<V, T>, id: SnapshotId)
    requires IsValid(a) && a.model.Has(id) && id < |a.snapshots| && a.snapshots[id].Some?
    requires b.model == a.model.DropSnapshot(id) && Height(b.tree) == Height(a.tree)
    requires var s := a.snapshots[id];
      if a.head == Head.Checkout(id) then b.objs == a.objs && b.tree == a.tree
      else
        && RefSum(b.objs.cells) == RefSum(a.objs.cells) - |ObjectPtrs(s)|
        && Balance(b.tree) == Balance(a.tree) - |ArrayPtrs(s)| + |s.value.instances|
    ensures Conserves(a, DropSnapshot(id), b)
  {
    hide Represents, WellFormed, Covers, Sound, RefSum, Balance, ObjectPtrs, ArrayPtrs, OwnedBy, Total;
    var slots, values := Slots(a.head, a.snapshots, None), Values(a.model, None);
    assert slots[id] == a.snapshots[id] && values[id] == a.model.snapshots[id];
    CountPointers(a.objs, a.tree, a.snapshots[id].value, a.model.snapshots[id].value);
    OwnedUpdate(Height(a.tree), a.model.snapshots, id);
  }

  lemma CheckoutConserves<V, T>(a: State<V, T>, b: State<V, T>, id: SnapshotId)
    requires IsValid(a) && a.model.Has(id) && b.model == a.model.Checkout(id) && Height(b.tree) == Height(a.tree)
    requires if a.head.Checkout? then b.objs == a.objs && b.tree == a.tree
      else
        && RefSum(b.objs.cells) == RefSum(a.objs.cells) - |ObjectPtrs(Some(a.head.snapshot))|
        && Balance(b.tree) == Balance(a.tree) - |ArrayPtrs(Some(a.head.snapshot))| + |a.head.snapshot.instances|
    ensures Conserves(a, Command.Checkout(id), b)
  {
    hide Represents, WellFormed, Covers, Sound, RefSum, Balance, ObjectPtrs, ArrayPtrs, OwnedBy, LiveObjects,
         LiveArrays;
    HeadReads(a.objs, a.tree, a.head, a.snapshots, a.model, None, None);
    CountPointers(a.objs, a.tree, Current(a.head, a.snapshots), a.model.head);
  }

  /** A dirty HEAD changes: `c` is the state in which it became dirty, after which its pointers became as many
      more as references were made beside them. */
  lemma ChangeConserves<V, T>(a: State<V, T>, command: Command<V, T>, c: State<V, T>, b: State<V, T>)
    requires !command.MakeSnapshot? && !command.DropSnapshot? && !command.Checkout?
    requires c.model.checkedOut.None? && b.model == Timeline(b.model.head, None, c.model.snapshots)
    requires Height(b.tree) == Height(c.tree)
    requires Leak(c) - Leak(a) + RefSum(b.objs.cells) + Balance(b.tree) - RefSum(c.objs.cells) - Balance(c.tree)
      == Pointers(Height(c.tree), b.model.head) - Pointers(Height(c.tree), c.model.head)
    ensures Conserves(a, command, b)
  {
    hide RefSum, Balance, Pointers, OwnedBy, Height;
  }

  lemma RefusedConserves<V, T>(st: State<V, T>, id: SnapshotId)
    requires !st.model.Has(id)
    ensures Conserves(st, DropSnapshot(id), st) && Conserves(st, Command.Checkout(id), st)
  {
    hide Leak;
  }

  lemma MadeLeak<V, T>(a: State<V, T>, b: State<V, T>)
    requires b.model == a.model && Height(b.tree) == Height(a.tree)
    ensures Leak(b) - Leak(a)
      == RefSum(b.objs.cells) + Balance(b.tree) - RefSum(a.objs.cells) - Balance(a.tree)
  {
    hide RefSum, Balance, Height;
  }

  lemma OneMoreObject<V, T>(height: nat, c: Contents<V, T>, item: V)
    ensures Pointers(height, c.(objects := c.objects + [item])) == Pointers(height, c) + 1
  {
  }

  lemma SameObjects<V, T>(height: nat, c: Contents<V, T>, id: nat, item: V)
    requires id < |c.objects|
    ensures Pointers(height, c.(objects := c.objects[id := item])) == Pointers(height, c)
  {
  }

  lemma OneMoreArray<V, T>(height: nat, c: Contents<V, T>, v: ArrayValue<T>)
    ensures Pointers(height, c.(arrays := c.arrays + [v])) == Pointers(height, c) + PagesOf(height, |v.items|) + 1
  {
    hide PagesOf;
    PointersAppend(height, c.arrays, v);
  }

  lemma SameArrays<V, T>(height: nat, c: Contents<V, T>, id: nat, v: ArrayValue<T>)
    requires id < |c.arrays| && |v.items| == |c.arrays[id].items|
    ensures Pointers(height, c.(arrays := c.arrays[id := v])) == Pointers(height, c)
  {
    PointersUpdate(height, c.arrays, id, v);
  }

  lemma InstancePointers<T>(tree: Levels<T>, inst: Instance, v: ArrayValue<T>)
    requires StandsFor(tree, inst, v)
    ensures |PtrsOf(inst)| == PagesOf(Height(tree), |v.items|) + 1
  {
    hide At, Through, DivCeil, Power64, Size, Height;
    SizeIsPower(tree);
  }

  lemma ArrayPointers<T>(a: Levels<T>, b: Levels<T>, live: multiset<Ptr>, inst: Instance, v: ArrayValue<T>)
    requires Updated(a, b, live, inst, v)
    ensures |PtrsOf(inst)| == PagesOf(Height(b), |v.items|) + 1
  {
    hide StandsFor, Height, PtrsOf, Sound, SameReads;
    InstancePointers(b, inst, v);
  }

  // ---------- Whole runs ----------

  /** What a run leaks, told from the plain timeline alone. */
  function RunLeaks<V, T>(height: nat, m: Timeline<Contents<V, T>>, commands: seq<Command<V, T>>): nat {
    if commands == [] then 0
    else
      var n := |commands| - 1;
      RunLeaks(height, m, commands[..n]) + LeakedBy(height, Run(m, commands[..n]), commands[n])
  }

  /** A run leaks nothing exactly when none of its commands does. */
  lemma {:induction false} LeaksNothing<V, T>(height: nat, m: Timeline<Contents<V, T>>, commands: seq<Command<V, T>>)
    ensures RunLeaks(height, m, commands) == 0 <==>
      forall i :: 0 <= i < |commands| ==> LeakedBy(height, Run(m, commands[..i]), commands[i]) == 0
  {
    hide LeakedBy, Run;
    if commands != [] {
      var n := |commands| - 1;
      var before := commands[..n];
      LeaksNothing(height, m, before);
      forall i | 0 <= i < n ensures before[..i] == commands[..i] && before[i] == commands[i] {
      }
    }
  }

  /** What each command leaks: nothing, but for the pointers of a dirty HEAD of which a snapshot is made,
      and one pointer for each array of a snapshot that is dropped and of a dirty HEAD that is given up. */
  lemma LeakByCommand<V, T>(a: State<V, T>, command: Command<V, T>, b: State<V, T>)
    requires Conserves(a, command, b)
    ensures Leak(b) - Leak(a) == match command
      case MakeSnapshot =>
        if a.model.checkedOut.Some? then 0 else |a.model.head.objects| + PointersOf(Height(a.tree), a.model.head.arrays)
      case DropSnapshot(id) =>
        if id < |a.model.snapshots| && a.model.snapshots[id].Some? && a.model.checkedOut != Some(id)
          then |a.model.snapshots[id].value.arrays| else 0
      case Checkout(id) =>
        if id < |a.model.snapshots| && a.model.snapshots[id].Some? && a.model.checkedOut.None?
          then |a.model.head.arrays| else 0
      case _ => 0
  {
    hide Leak, PointersOf, Height;
  }

  /** The shortest run that leaks: an object is inserted, and a snapshot is made while HEAD is dirty. */
  lemma DirtySnapshotLeaks<V, T>(height: nat, item: V)
    ensures RunLeaks(height, Timeline(Contents<V, T>.Contents([], []), None, []), [Insert(item), MakeSnapshot]) == 1
  {
    var m := Timeline(Contents<V, T>.Contents([], []), None, []);
    var run := [Command<V, T>.Insert(item), MakeSnapshot];
    assert run[..1] == [Command<V, T>.Insert(item)] && run[..1][..0] == [];
    assert Run(m, run[..1]) == Step(Run(m, run[..1][..0]), Command<V, T>.Insert(item));
    assert RunLeaks(height, m, run[..1]) == RunLeaks(height, m, run[..1][..0]) + 0;
  }
}
