/** The snapshotting allocator: a HEAD that is either dirty or a checked-out snapshot, and an arena
    of snapshots, over one shared storage. `model` is the timeline of plain contents it stands for. */
module SpaceTimes {
  import opened Options
  import opened Slabs
  import opened Tables
  import opened RadixTree
  import opened Rooms
  import opened Balances
  import opened Sharings
  import opened Chunks
  import opened ArrayStorages
  import opened Instances
  import opened Totals
  import opened Timelines
  import opened Storages
  import opened Heads
  import opened Commands
  import opened Needs
  import opened Leaks

  datatype Lookup<+X> = Found(value: X) | InvalidId

  /** Gives up all pointers of one owner. */
  method DeleteOwner<V, T>(storage: Storage<V, T>, snapshot: Snapshot, ghost slots: seq<Option<Snapshot>>,
                           ghost values: seq<Option<Contents<V, T>>>, ghost i: nat)
    requires storage.Valid() && Consistent(storage.Objects(), storage.Arrays(), slots, values)
    requires i < |slots| && slots[i] == Some(snapshot)
    modifies storage.tables, storage.arrays.dataTable, storage.arrays.pageTables
    ensures storage.Valid()
    ensures
      && SlabGrew(old(storage.Objects()), storage.Objects(), 0, 0)
      && TreeGrew(old(storage.Arrays()), storage.Arrays(), 0, 0)
    ensures Deleted(old(storage.Objects()), old(storage.Arrays()), storage.Objects(), storage.Arrays(),
      TotalBut(slots, ObjectPtrs, i), TotalBut(slots, ArrayPtrs, i))
    ensures RefSum(storage.Objects().cells) == old(RefSum(storage.Objects().cells)) - |ObjectPtrs(slots[i])|
    ensures Balance(storage.Arrays()) == old(Balance(storage.Arrays())) - |ArrayPtrs(slots[i])| + |snapshot.instances|
  {
    hide Represents, Sound, Covers, WellFormed, ItemAt, Separate, AllValid, LevelsOf, SameItems, SameReads,
         Total, TotalBut, Height, ObjectPtrs, ArrayPtrs, SlabGrew, TreeGrew, RefSum, Balance;
    TotalSplit(slots, ObjectPtrs, i, None);
    TotalSplit(slots, ArrayPtrs, i, None);
    storage.DeleteSnapshot(snapshot, TotalBut(slots, ObjectPtrs, i), TotalBut(slots, ArrayPtrs, i));
  }

  class SpaceTime<V, T> {
    const storage: Storage<V, T>
    var head: Head
    var snapshots: seq<Option<Snapshot>>
    ghost var model: Timeline<Contents<V, T>>

    ghost predicate ValidWith(pending: Option<Snapshot>, pv: Option<Contents<V, T>>)
      reads this, storage.tables, storage.arrays.dataTable, storage.arrays.pageTables
    {
      storage.Valid() && Models(storage.Objects(), storage.Arrays(), head, snapshots, model, pending, pv)
    }

    ghost predicate Valid()
      reads this, storage.tables, storage.arrays.dataTable, storage.arrays.pageTables
    {
      ValidWith(None, None)
    }

    /** The state as a value. */
    ghost function Now(): State<V, T>
      reads this, storage.tables, storage.arrays.dataTable, storage.arrays.pageTables
      requires storage.Valid()
    {
      State(storage.Objects(), storage.Arrays(), head, snapshots, model)
    }

    /** Where an operation ends that overflows: some 31-bit field is at its limit. The timeline does
        not change, and nothing is promised about the rest. */
    ghost predicate Stopped()
      reads storage.tables, storage.arrays.dataTable, storage.arrays.pageTables
    {
      storage.Valid() && storage.OutOfRoom()
    }

    function Layers(): nat {
      |storage.arrays.pageTables|
    }

    /** An empty allocator; HEAD is dirty and there are no snapshots. */
    constructor (layers: nat)
      ensures Valid() && Layers() == layers && head == Head.Dirty(Snapshot([], [])) && snapshots == []
      ensures model == Timeline(Contents([], []), None, [])
      ensures forall slots: nat, refs: nat :: slots <= LIMIT && refs < LIMIT ==> HasRoom(Now(), slots, refs)
      ensures Leak(Now()) == 0
      ensures fresh(storage.tables) && fresh(storage.arrays.dataTable)
      ensures forall t :: t in storage.arrays.pageTables ==> fresh(t)
    {
      hide Sound, Covers, WellFormed, Models, EmptyTables, Balance, Leak;
      var empty := new Storage<V, T>(layers);
      storage := empty;
      head, snapshots := Head.Dirty(Snapshot([], [])), [];
      model := Timeline(Contents([], []), None, []);
      new;
      NothingYet(storage.Objects(), storage.Arrays());
      NothingToLeak(Now());
      forall slots: nat, refs: nat | slots <= LIMIT && refs < LIMIT ensures HasRoom(Now(), slots, refs) {
        EmptyHasRoom(storage.Arrays(), slots, refs);
      }
    }

    /** Hands out HEAD for a change; a checked-out HEAD first becomes a copy of its snapshot. */
    method GetHeadMut(ghost pending: Option<Snapshot>, ghost pv: Option<Contents<V, T>>) returns (s: Outcome<Snapshot>)
      requires ValidWith(pending, pv)
      modifies this, storage.tables, storage.arrays.dataTable, storage.arrays.pageTables
      ensures s.Done? ==>
        ValidWith(pending, pv) && head == Head.Dirty(s.value) && model == old(model).Change(old(model.head))
      ensures s.Overflow? ==> Stopped() && model == old(model)
      ensures old(HasRoom(Now(), 0, HeadRefs(Now()))) ==> s.Done?
      ensures s.Done? ==> Leak(Now()) == old(Leak(Now()))
      ensures s.Done? ==> s.value == old(Held(Now())) && Grew(old(Now()), Now(), 0, old(HeadRefs(Now())))
      ensures s.Done? && old(head).Dirty? ==>
        storage.Objects() == old(storage.Objects()) && storage.Arrays() == old(storage.Arrays())
    {
      hide Consistent, Sound, Covers, WellFormed, Represents, LiveObjects, LiveArrays, Unchanged, ItemAt, Separate,
           AllValid,
           LevelsOf, ObjectPtrs, ArrayPtrs, Slots, Values, OutOfRoom, Exhausted, CopyRefs, Grew, HasRoom, SlabCloned,
           Cloned,
           SlabCloneFits, CloneFits, Leak;
      ghost var st := Now();
      ghost var objs, tree := storage.Objects(), storage.Arrays();
      HeadReads(objs, tree, head, snapshots, model, pending, pv);
      CopyFits(st, Held(st));
      GrewRefl(st, 0, 0);
      if head.Checkout? {
        var snapshot := snapshots[head.id].value;
        var copy :- storage.CloneSnapshot(snapshot, LiveObjects(head, snapshots, pending),
                                          LiveArrays(head, snapshots, pending));
        HeadDirtied(objs, tree, storage.Objects(), storage.Arrays(), head, snapshots, model, pending, pv);
        head := Head.Dirty(copy);
        model := model.Change(model.head);
        CopyGrew(st, Now(), copy);
        HeadKept(st, Now(), pending, pv);
      }
      s := Done(head.snapshot);
    }

    /** Makes a snapshot of HEAD and checks it out. */
    method MakeSnapshot() returns (id: Outcome<SnapshotId>)
      requires Valid()
      modifies this, storage.tables, storage.arrays.dataTable, storage.arrays.pageTables
      ensures id.Done? ==> Valid() && model == old(model).MakeSnapshot() && id.value == |old(model).snapshots|
      ensures id.Done? ==>
        model == Timeline(old(model.head), Some(id.value), old(model.snapshots) + [Some(old(model.head))])
      ensures id.Overflow? ==> Stopped() && model == old(model)
      ensures old(Fits(Now(), Command.MakeSnapshot)) ==> id.Done?
      ensures id.Done? ==>
        Took(old(Now()), Command.MakeSnapshot, Now()) && Conserves(old(Now()), Command.MakeSnapshot, Now())
    {
      hide Consistent, Sound, Covers, WellFormed, Represents, LiveObjects, LiveArrays, Unchanged, ItemAt, Separate,
           AllValid,
           LevelsOf, ObjectPtrs, ArrayPtrs, Slots, Values, OutOfRoom, Exhausted, CopyRefs, Grew, HasRoom, SlabCloned,
           Cloned,
           SlabCloneFits, CloneFits, Conserves;
      ghost var st := Now();
      CopyFits(st, Held(st));
      ghost var objs, tree := storage.Objects(), storage.Arrays();
      HeadReads(objs, tree, head, snapshots, model, None, None);
      var current := Current(head, snapshots);
      var copy :- storage.CloneSnapshot(current, LiveObjects(head, snapshots, None), LiveArrays(head, snapshots, None));
      SnapshotMade(objs, tree, storage.Objects(), storage.Arrays(), head, snapshots, model);
      var index := |snapshots|;
      snapshots := snapshots + [Some(copy)];
      head := Head.Checkout(index);
      model := model.MakeSnapshot();
      CopyGrew(st, Now(), copy);
      SnapshotConserves(st, Now());
      id := Done(index);
    }

    /** Fails, and changes nothing, when there is no such snapshot. */
    method DropSnapshot(id: SnapshotId) returns (ok: bool)
      requires Valid()
      modifies this, storage.tables, storage.arrays.dataTable, storage.arrays.pageTables
      ensures Valid() && ok == old(model).Has(id)
      ensures model == if ok then old(model).DropSnapshot(id) else old(model)
      ensures ok <==> id < |old(model.snapshots)| && old(model.snapshots)[id].Some?
      ensures ok ==> model.head == old(model.head) && model.snapshots == old(model.snapshots)[id := None]
      ensures Took(old(Now()), Command.DropSnapshot(id), Now())
      ensures Conserves(old(Now()), Command.DropSnapshot(id), Now())
    {
      hide SlabGrew, TreeGrew, Consistent, Sound, Covers, WellFormed, Represents, ItemAt, Separate, AllValid, LevelsOf,
           ObjectPtrs, ArrayPtrs, Deleted, Total, TotalBut, Values, RefSum, Balance, Leak, Conserves;
      ghost var st := Now();
      ghost var objs, tree := storage.Objects(), storage.Arrays();
      GrewRefl(Now(), 0, 0);
      SnapshotExists(objs, tree, head, snapshots, model, id);
      if id >= |snapshots| || snapshots[id].None? {
        RefusedConserves(st, id);
        return false;
      }
      var snapshot := snapshots[id].value;
      if head == Head.Checkout(id) {
        HeadInherits(objs, tree, head, snapshots, model);
        head := Head.Dirty(snapshot);
      } else {
        DeleteOwner(storage, snapshot, Slots(head, snapshots, None), Values(model, None), id);
        SnapshotDropped(objs, tree, storage.Objects(), storage.Arrays(), head, snapshots, model, id);
      }
      snapshots := snapshots[id := None];
      model := model.DropSnapshot(id);
      DropConserves(st, Now(), id);
      ok := true;
    }

    /** Sets HEAD to a snapshot; fails, and changes nothing, when there is no such snapshot. */
    method Checkout(id: SnapshotId) returns (ok: bool)
      requires Valid()
      modifies this, storage.tables, storage.arrays.dataTable, storage.arrays.pageTables
      ensures Valid() && ok == old(model).Has(id)
      ensures model == if ok then old(model).Checkout(id) else old(model)
      ensures ok <==> id < |old(model.snapshots)| && old(model.snapshots)[id].Some?
      ensures ok ==> model.snapshots == old(model.snapshots) && Some(model.head) == old(model.snapshots)[id]
      ensures Took(old(Now()), Command.Checkout(id), Now())
      ensures Conserves(old(Now()), Command.Checkout(id), Now())
    {
      hide SlabGrew, TreeGrew, Consistent, Sound, Covers, WellFormed, Represents, ItemAt, Separate, AllValid, LevelsOf,
           ObjectPtrs, ArrayPtrs, Deleted, Total, TotalBut, Values, RefSum, Balance, Leak, Conserves;
      ghost var st := Now();
      ghost var objs, tree := storage.Objects(), storage.Arrays();
      GrewRefl(Now(), 0, 0);
      SnapshotExists(objs, tree, head, snapshots, model, id);
      if id >= |snapshots| || snapshots[id].None? {
        RefusedConserves(st, id);
        return false;
      }
      if head.Dirty? {
        DeleteOwner(storage, head.snapshot, Slots(head, snapshots, None), Values(model, None), |snapshots|);
        HeadReplaced(objs, tree, storage.Objects(), storage.Arrays(), head, snapshots, model, id);
      } else {
        HeadSwitched(objs, tree, head, snapshots, model, id);
      }
      head := Head.Checkout(id);
      model := model.Checkout(id);
      CheckoutConserves(st, Now(), id);
      ok := true;
    }

    /** Inserts an object; its id is its place among the objects of HEAD. */
    method Insert(item: V) returns (id: Outcome<nat>)
      requires Valid()
      modifies this, storage.tables, storage.arrays.dataTable, storage.arrays.pageTables
      ensures id.Done? ==>
        Valid() && model == Step(old(model), Command.Insert(item)) && id.value == |old(model).head.objects|
      ensures id.Done? ==>
        && model == Timeline(old(model.head).(objects := model.head.objects), None, old(model.snapshots))
        && model.head.objects == old(model.head.objects) + [item]
      ensures id.Overflow? ==> Stopped() && model == old(model)
      ensures old(Fits(Now(), Command.Insert(item))) ==> id.Done?
      ensures id.Done? ==>
        Took(old(Now()), Command.Insert(item), Now()) && Conserves(old(Now()), Command.Insert(item), Now())
    {
      hide Consistent, Sound, Covers, WellFormed, Represents, ItemAt, Separate, AllValid, LevelsOf,
           LiveObjects, LiveArrays, SameItems, Slots, Values, OutOfRoom, Exhausted,
           HasRoom, HeadRefs, Held, SlabGrew, TreeGrew, TreeFits, HasSlot,
           RefSum, Balance, Leak, Conserves, Pointers;
      ghost var st := Now();
      ghost var objs, tree := storage.Objects(), storage.Arrays();
      HeadReads(objs, tree, head, snapshots, model, None, None);
      ObjectFits(st, 1, HeadRefs(st));
      var p :- InsertObject(storage.tables, item, LiveObjects(head, snapshots, None));
      ObjectMade(objs, storage.Objects(), tree, head, snapshots, model, p, item);
      ghost var st1 := Now();
      ObjectTook(st, st1, HeadRefs(st));
      SameHead(st, st1);
      MadeLeak(st, st1);
      var s :- GetHeadMut(Some(Snapshot([p], [])), Some(Contents([item], [])));
      ghost var st2 := Now();
      GrewTrans(st, st1, st2, 1, 0, 0, HeadRefs(st));
      AdoptObject(storage.Objects(), storage.Arrays(), snapshots, model, s, p, item);
      HeadLength(storage.Objects(), storage.Arrays(), head, snapshots, model, s, Some(Snapshot([p], [])),
                 Some(Contents([item], [])));
      head := Head.Dirty(s.(tablePtrs := s.tablePtrs + [p]));
      model := model.Change(model.head.(objects := model.head.objects + [item]));
      OneMoreObject(Layers(), st2.model.head, item);
      ChangeConserves(st, Command.Insert(item), st2, Now());
      id := Done(|s.tablePtrs|);
    }

    /** Inserts an array of `size` times `fill`; its id is its place among the arrays of HEAD. */
    method InsertArray(fill: T, size: nat) returns (id: Outcome<nat>)
      requires Valid()
      modifies this, storage.tables, storage.arrays.dataTable, storage.arrays.pageTables
      ensures id.Done? ==>
        Valid() && model == Step(old(model), Command.InsertArray(fill, size)) && id.value == |old(model).head.arrays|
      ensures id.Done? ==>
        && model == Timeline(old(model.head).(arrays := model.head.arrays), None, old(model.snapshots))
        && |model.head.arrays| == id.value + 1 && model.head.arrays[..id.value] == old(model.head.arrays)
        && var a := model.head.arrays[id.value];
        a.fill == fill && |a.items| == size && forall j :: 0 <= j < size ==> a.items[j] == fill
      ensures PagesOf(Layers(), size) >= LIMIT ==> id.Overflow?
      ensures id.Overflow? ==> Stopped() && model == old(model)
      ensures old(Fits(Now(), Command.InsertArray(fill, size))) ==> id.Done?
      ensures id.Done? ==>
        && Took(old(Now()), Command.InsertArray(fill, size), Now())
        && Conserves(old(Now()), Command.InsertArray(fill, size), Now())
    {
      hide Consistent, Sound, Covers, WellFormed, Represents, ItemAt, Separate, AllValid, LevelsOf,
           LiveObjects, LiveArrays, Updated, Slots, Values, OutOfRoom, Exhausted,
           HasRoom, HeadRefs, Held, SlabGrew, TreeGrew, TreeFits, Size, PagesOf,
           RefSum, Balance, Leak, Conserves, Pointers, PtrsOf, StandsFor;
      ghost var st := Now();
      ghost var objs, tree := storage.Objects(), storage.Arrays();
      HeadReads(objs, tree, head, snapshots, model, None, None);
      ArrayFits(st, size, HeadRefs(st));
      var inst :- storage.arrays.NewInstance(fill, size, LiveArrays(head, snapshots, None));
      ghost var v := ArrayValue(fill, Repeat(fill, size));
      ArrayMade(objs, tree, storage.Arrays(), head, snapshots, model, inst, v);
      ghost var st1 := Now();
      ghost var added := PAGE_SIZE + PagesOf(Height(st.tree), size);
      ArrayTook(st, st1, added, HeadRefs(st));
      SameHead(st, st1);
      MadeLeak(st, st1);
      ArrayPointers(st.tree, st1.tree, LiveArrays(head, snapshots, None), inst, v);
      var s :- GetHeadMut(Some(Snapshot([], [inst])), Some(Contents([], [v])));
      ghost var st2 := Now();
      GrewTrans(st, st1, st2, 1, added, 0, HeadRefs(st));
      AdoptArray(storage.Objects(), storage.Arrays(), snapshots, model, s, inst, v);
      HeadLength(storage.Objects(), storage.Arrays(), head, snapshots, model, s, Some(Snapshot([], [inst])),
                 Some(Contents([], [v])));
      head := Head.Dirty(s.(instances := s.instances + [inst]));
      model := model.Change(model.head.(arrays := model.head.arrays + [v]));
      OneMoreArray(Layers(), st2.model.head, v);
      ChangeConserves(st, Command.InsertArray(fill, size), st2, Now());
      id := Done(|s.instances|);
    }

    method Get(id: nat) returns (item: Lookup<V>)
      requires Valid()
      ensures item == if id < |model.head.objects| then Found(model.head.objects[id]) else InvalidId
    {
      hide Consistent, Sound, Covers, WellFormed, Separate, AllValid, LevelsOf, LiveObjects, LiveArrays;
      HeadReads(storage.Objects(), storage.Arrays(), head, snapshots, model, None, None);
      var s := Current(head, snapshots);
      if id >= |s.tablePtrs| {
        return InvalidId;
      }
      assert ItemAt(storage.Objects(), s.tablePtrs[id]) == Some(model.head.objects[id]);
      var value := storage.tables.GetItem(s.tablePtrs[id]);
      item := Found(value);
    }

    /** Writes an object through the mutable reference that `get_mut` hands out. */
    method SetObject(id: nat, item: V) returns (ok: Outcome<bool>)
      requires Valid()
      modifies this, storage.tables, storage.arrays.dataTable, storage.arrays.pageTables
      ensures ok.Done? ==>
        Valid() && model == Step(old(model), Command.SetObject(id, item))
          && ok.value == (id < |old(model).head.objects|)
      ensures ok.Done? ==>
        && model == Timeline(old(model.head).(objects := model.head.objects), None, old(model.snapshots))
        && model.head.objects == if ok.value then old(model.head.objects)[id := item] else old(model.head.objects)
      ensures ok.Overflow? ==> Stopped() && model == old(model)
      ensures old(Fits(Now(), Command.SetObject(id, item))) ==> ok.Done?
      ensures ok.Done? ==>
        && Took(old(Now()), Command.SetObject(id, item), Now())
        && Conserves(old(Now()), Command.SetObject(id, item), Now())
    {
      hide Consistent, Sound, Covers, WellFormed, Represents, ItemAt, Separate, AllValid, LevelsOf,
           LiveObjects, LiveArrays, SameItems, Slots, Values, ObjectPtrs, ArrayPtrs, OutOfRoom, Exhausted,
           HasRoom, HeadRefs, Held, SlabGrew, TreeGrew, TreeFits, ObjectCost, HasSlot,
           RefSum, Balance, Leak, Conserves, Pointers;
      ghost var st := Now();
      ghost var was := model;
      HeadFits(st, Command.SetObject(id, item));
      var s :- GetHeadMut(None, None);
      ghost var st1 := Now();
      ghost var objs, tree := storage.Objects(), storage.Arrays();
      HeadReads(objs, tree, head, snapshots, model, None, None);
      HeadLength(objs, tree, head, snapshots, model, s, None, None);
      if id >= |s.tablePtrs| {
        assert SlotsFor(st, Command.SetObject(id, item)) == 0;
        ChangeConserves(st, Command.SetObject(id, item), st1, st1);
        return Done(false);
      }
      ghost var live := LiveObjects(head, snapshots, None);
      TakeOut(s, id, live);
      ObjectForeseen(st, st1, id);
      var q := WriteObject(storage.tables, s.tablePtrs[id], item, live - multiset{s.tablePtrs[id]});
      if q.Overflow? {
        model := was;
        return Overflow;
      }
      ObjectWriteTook(st, st1, Now(), ObjectCost(objs, s.tablePtrs[id]), SlotsFor(st, Command.SetObject(id, item)));
      HeadObjectWritten(objs, storage.Objects(), tree, snapshots, model, s, id, q.value, item);
      head := Head.Dirty(s.(tablePtrs := s.tablePtrs[id := q.value]));
      model := model.Change(model.head.(objects := model.head.objects[id := item]));
      SameObjects(Layers(), st1.model.head, id, item);
      ChangeConserves(st, Command.SetObject(id, item), st1, Now());
      ok := Done(true);
    }

    /** Writes one item of an array. */
    method SetItem(id: nat, index: nat, value: T) returns (ok: Outcome<Lookup<bool>>)
      requires Valid()
      modifies this, storage.tables, storage.arrays.dataTable, storage.arrays.pageTables
      ensures ok.Done? ==>
        && Valid() && model == Step(old(model), Command.SetItem(id, index, value))
        && ok.value == if id < |old(model).head.arrays| then Found(index < |old(model).head.arrays[id].items|)
          else InvalidId
      ensures ok.Done? ==>
        && model == Timeline(old(model.head).(arrays := model.head.arrays), None, old(model.snapshots))
        && if ok.value != Found(true) then model.head.arrays == old(model.head.arrays)
           else
             var a := old(model.head.arrays)[id];
             model.head.arrays == old(model.head.arrays)[id := a.(items := a.items[index := value])]
      ensures ok.Overflow? ==> Stopped() && model == old(model)
      ensures old(Fits(Now(), Command.SetItem(id, index, value))) ==> ok.Done?
      ensures ok.Done? ==>
        && Took(old(Now()), Command.SetItem(id, index, value), Now())
        && Conserves(old(Now()), Command.SetItem(id, index, value), Now())
    {
      hide Consistent, Sound, Covers, WellFormed, Represents, ItemAt, Separate, AllValid, LevelsOf,
           Updated, Slots, Values, OtherArrays, StandsFor, PtrsOf, OutOfRoom, Exhausted,
           HasRoom, HeadRefs, Held, SlabGrew, TreeGrew, TreeFits, SharedIn, WritePages, PagesFit, PagesPaid,
           RefSum, Balance, Leak, Conserves, Pointers;
      ghost var st := Now();
      ghost var was := model;
      HeadFits(st, Command.SetItem(id, index, value));
      var s :- GetHeadMut(None, None);
      ghost var st1 := Now();
      ghost var objs, tree := storage.Objects(), storage.Arrays();
      HeadLength(objs, tree, head, snapshots, model, s, None, None);
      if id >= |s.instances| {
        OutOfBounds(st, st1, id, index, 1);
        ChangeConserves(st, Command.SetItem(id, index, value), st1, st1);
        return Done(InvalidId);
      }
      HeadArray(objs, tree, snapshots, model, s, id);
      StandsForSize(tree, s.instances[id], model.head.arrays[id]);
      ghost var pages: nat := 0;
      if index + 1 <= s.instances[id].size {
        pages := WriteForeseen(st, st1, OtherArrays(snapshots, s, id) + PtrsOf(s.instances[id]), id, index, 1);
      }
      ghost var v := model.head.arrays[id];
      var inst := storage.arrays.Set(s.instances[id], index, value, OtherArrays(snapshots, s, id), v);
      if inst.Overflow? {
        model := was;
        return Overflow;
      }
      if inst.value.None? {
        OutOfBounds(st, Now(), id, index, 1);
        ChangeConserves(st, Command.SetItem(id, index, value), st1, Now());
        return Done(Found(false));
      }
      ghost var v' := v.(items := v.items[index := value]);
      WriteTook(st, st1, Now(), pages, WritePages(st, id, index, 1));
      HeadArrayWritten(objs, tree, storage.Arrays(), snapshots, model, s, id, inst.value.value, v');
      head := Head.Dirty(s.(instances := s.instances[id := inst.value.value]));
      model := model.Change(model.head.(arrays := model.head.arrays[id := v']));
      SameArrays(Layers(), st1.model.head, id, v');
      ChangeConserves(st, Command.SetItem(id, index, value), st1, Now());
      ok := Done(Found(true));
    }

    /** Writes a range of items of an array. */
    method WriteItems(id: nat, index: nat, buf: seq<T>) returns (ok: Outcome<Lookup<bool>>)
      requires Valid()
      modifies this, storage.tables, storage.arrays.dataTable, storage.arrays.pageTables
      ensures ok.Done? ==>
        && Valid() && model == Step(old(model), Command.WriteItems(id, index, buf))
        && ok.value == if id < |old(model).head.arrays| then Found(index + |buf| <= |old(model).head.arrays[id].items|)
          else InvalidId
      ensures ok.Done? ==>
        && model == Timeline(old(model.head).(arrays := model.head.arrays), None, old(model.snapshots))
        && |model.head.arrays| == |old(model.head.arrays)|
        && forall k :: 0 <= k < |model.head.arrays| && (k != id || ok.value != Found(true)) ==>
          model.head.arrays[k] == old(model.head.arrays)[k]
      ensures ok == Done(Found(true)) ==>
        var before, after := old(model.head.arrays)[id], model.head.arrays[id];
        && after.fill == before.fill && |after.items| == |before.items|
        && forall j :: 0 <= j < |after.items| ==>
          after.items[j] == if index <= j < index + |buf| then buf[j - index] else before.items[j]
      ensures ok.Overflow? ==> Stopped() && model == old(model)
      ensures old(Fits(Now(), Command.WriteItems(id, index, buf))) ==> ok.Done?
      ensures ok.Done? ==>
        && Took(old(Now()), Command.WriteItems(id, index, buf), Now())
        && Conserves(old(Now()), Command.WriteItems(id, index, buf), Now())
    {
      hide Consistent, Sound, Covers, WellFormed, Represents, ItemAt, Separate, AllValid, LevelsOf,
           Updated, Slots, Values, OtherArrays, StandsFor, PtrsOf, OutOfRoom, Exhausted,
           HasRoom, HeadRefs, Held, SlabGrew, TreeGrew, TreeFits, SharedIn, WritePages, PagesFit, PagesPaid,
           RefSum, Balance, Leak, Conserves, Pointers,
           Overwrite;
      ghost var st := Now();
      ghost var was := model;
      HeadFits(st, Command.WriteItems(id, index, buf));
      var s :- GetHeadMut(None, None);
      ghost var st1 := Now();
      ghost var objs, tree := storage.Objects(), storage.Arrays();
      HeadLength(objs, tree, head, snapshots, model, s, None, None);
      if id >= |s.instances| {
        OutOfBounds(st, st1, id, index, |buf|);
        ChangeConserves(st, Command.WriteItems(id, index, buf), st1, st1);
        return Done(InvalidId);
      }
      HeadArray(objs, tree, snapshots, model, s, id);
      StandsForSize(tree, s.instances[id], model.head.arrays[id]);
      ghost var pages: nat := 0;
      if index + |buf| <= s.instances[id].size {
        pages := WriteForeseen(st, st1, OtherArrays(snapshots, s, id) + PtrsOf(s.instances[id]), id, index, |buf|);
      }
      ghost var v := model.head.arrays[id];
      var inst := storage.arrays.Write(s.instances[id], index, buf, OtherArrays(snapshots, s, id), v);
      if inst.Overflow? {
        model := was;
        return Overflow;
      }
      if inst.value.None? {
        OutOfBounds(st, Now(), id, index, |buf|);
        ChangeConserves(st, Command.WriteItems(id, index, buf), st1, Now());
        return Done(Found(false));
      }
      Overwritten(v, index, buf);
      WriteTook(st, st1, Now(), pages, WritePages(st, id, index, |buf|));
      HeadArrayWritten(objs, tree, storage.Arrays(), snapshots, model, s, id, inst.value.value,
                       Overwrite(v, index, buf));
      head := Head.Dirty(s.(instances := s.instances[id := inst.value.value]));
      model := model.Change(model.head.(arrays := model.head.arrays[id := Overwrite(v, index, buf)]));
      SameArrays(Layers(), st1.model.head, id, Overwrite(v, index, buf));
      ChangeConserves(st, Command.WriteItems(id, index, buf), st1, Now());
      ok := Done(Found(true));
    }

    method ResetArray(id: nat) returns (ok: Outcome<bool>)
      requires Valid()
      modifies this, storage.tables, storage.arrays.dataTable, storage.arrays.pageTables
      ensures ok.Done? ==>
        Valid() && model == Step(old(model), Command.ResetArray(id)) && ok.value == (id < |old(model).head.arrays|)
      ensures ok.Done? ==>
        && model == Timeline(old(model.head).(arrays := model.head.arrays), None, old(model.snapshots))
        && |model.head.arrays| == |old(model.head.arrays)|
        && forall k :: 0 <= k < |model.head.arrays| && k != id ==> model.head.arrays[k] == old(model.head.arrays)[k]
      ensures ok == Done(true) ==>
        var before, after := old(model.head.arrays)[id], model.head.arrays[id];
        && after.fill == before.fill && |after.items| == |before.items|
        && forall j :: 0 <= j < |after.items| ==> after.items[j] == before.fill
      ensures ok.Overflow? ==> Stopped() && model == old(model)
      ensures old(Fits(Now(), Command.ResetArray(id))) ==> ok.Done?
      ensures ok.Done? ==>
        Took(old(Now()), Command.ResetArray(id), Now()) && Conserves(old(Now()), Command.ResetArray(id), Now())
    {
      hide Consistent, Sound, Covers, WellFormed, Represents, ItemAt, Separate, AllValid, LevelsOf,
           Updated, Slots, Values, OtherArrays, StandsFor, PtrsOf, OutOfRoom, Exhausted,
           HasRoom, HeadRefs, Held, SlabGrew, TreeGrew, TreeFits, Changed,
           RefSum, Balance, Leak, Conserves, Pointers;
      ghost var st := Now();
      ghost var was := model;
      HeadFits(st, Command.ResetArray(id));
      var s :- GetHeadMut(None, None);
      ghost var st1 := Now();
      ghost var objs, tree := storage.Objects(), storage.Arrays();
      HeadLength(objs, tree, head, snapshots, model, s, None, None);
      if id >= |s.instances| {
        ChangeConserves(st, Command.ResetArray(id), st1, st1);
        return Done(false);
      }
      HeadArray(objs, tree, snapshots, model, s, id);
      StandsForSize(tree, s.instances[id], model.head.arrays[id]);
      ghost var v := model.head.arrays[id];
      ghost var changed := Changed(s.instances[id].pages, s.instances[id].resetPage);
      ResetForeseen(st, st1, changed);
      var inst := storage.arrays.Reset(s.instances[id], OtherArrays(snapshots, s, id), v);
      if inst.Overflow? {
        model := was;
        return Overflow;
      }
      ghost var v' := v.(items := Repeat(v.fill, |v.items|));
      ResetTook(st, st1, Now(), changed);
      HeadArrayWritten(objs, tree, storage.Arrays(), snapshots, model, s, id, inst.value, v');
      head := Head.Dirty(s.(instances := s.instances[id := inst.value]));
      model := model.Change(model.head.(arrays := model.head.arrays[id := v']));
      SameArrays(Layers(), st1.model.head, id, v');
      ChangeConserves(st, Command.ResetArray(id), st1, Now());
      ok := Done(true);
    }

    /** One item of an array of HEAD, through its accessor. */
    method GetItem(id: nat, index: nat) returns (item: Lookup<Option<T>>)
      requires Valid()
      ensures item == if id >= |model.head.arrays| then InvalidId
                      else if index < |model.head.arrays[id].items|
                        then Found(Some(model.head.arrays[id].items[index])) else Found(None)
    {
      hide Consistent, Sound, Covers, WellFormed, Separate, AllValid, LevelsOf, LiveObjects, LiveArrays, StandsFor,
           PtrsOf,
           ItemAt;
      HeadReads(storage.Objects(), storage.Arrays(), head, snapshots, model, None, None);
      var s := Current(head, snapshots);
      if id >= |s.instances| {
        return InvalidId;
      }
      TotalMember(s.instances, PtrsOf, id);
      var value := storage.arrays.Get(s.instances[id], index, LiveArrays(head, snapshots, None), model.head.arrays[id]);
      item := Found(value);
    }

    /** A range of items of an array of HEAD; `buf` is left alone when the range is out of bounds. */
    method ReadItems(id: nat, index: nat, buf: array<T>) returns (ok: Lookup<bool>)
      requires Valid()
      requires buf as object != this && buf as object != storage.tables && buf as object != storage.arrays.dataTable
      requires forall i :: 0 <= i < |storage.arrays.pageTables| ==> storage.arrays.pageTables[i] as object != buf
      modifies buf
      ensures Valid()
      ensures ok == if id < |model.head.arrays| then Found(index + buf.Length <= |model.head.arrays[id].items|)
        else InvalidId
      ensures buf[..] == if ok == Found(true) then model.head.arrays[id].items[index..index + buf.Length]
        else old(buf[..])
    {
      hide Consistent, Sound, Covers, WellFormed, Separate, AllValid, LevelsOf, LiveObjects, LiveArrays, StandsFor,
           PtrsOf,
           ItemAt;
      HeadReads(storage.Objects(), storage.Arrays(), head, snapshots, model, None, None);
      var s := Current(head, snapshots);
      if id >= |s.instances| {
        return InvalidId;
      }
      TotalMember(s.instances, PtrsOf, id);
      var done := storage.arrays.Read(s.instances[id], buf, index, LiveArrays(head, snapshots, None),
                                      model.head.arrays[id]);
      ok := Found(done);
    }
  }
}
