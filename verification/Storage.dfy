/** Snapshots of the allocator and the storage they share: one slab of objects and one storage of
    paged arrays. Snapshots share everything that was not changed between them. */
module Storages {
  import opened Options
  import opened Slabs
  import opened Tables
  import opened RadixTree
  import opened Rooms
  import opened Balances
  import opened ArrayStorages
  import opened ArrayReads
  import opened ArrayDrops
  import opened ArrayFill
  import opened Instances
  import opened Totals

  /** Objects and arrays by id. With nothing removed, arena ids are dense and kept by a copy. */
  datatype Snapshot = Snapshot(tablePtrs: seq<Ptr>, instances: seq<Instance>)

  /** What a snapshot stands for. */
  datatype Contents<V, T> = Contents(objects: seq<V>, arrays: seq<ArrayValue<T>>)

  ghost predicate Represents<V, T>(objs: Slab<V>, tree: Levels<T>, s: Snapshot, c: Contents<V, T>) {
    && |s.tablePtrs| == |c.objects|
    && (forall i :: 0 <= i < |c.objects| ==> ItemAt(objs, s.tablePtrs[i]) == Some(c.objects[i]))
    && |s.instances| == |c.arrays| && (forall i :: 0 <= i < |c.arrays| ==> StandsFor(tree, s.instances[i], c.arrays[i]))
  }

  function ObjectPtrs(slot: Option<Snapshot>): multiset<Ptr> {
    if slot.Some? then multiset(slot.value.tablePtrs) else multiset{}
  }

  function ArrayPtrs(slot: Option<Snapshot>): multiset<Ptr> {
    if slot.Some? then Total(slot.value.instances, PtrsOf) else multiset{}
  }

  /** The snapshots in `slots` stand for `values`, and all their pointers are accounted for. */
  ghost predicate Consistent<V, T>(objs: Slab<V>, tree: Levels<T>, slots: seq<Option<Snapshot>>,
                                   values: seq<Option<Contents<V, T>>>) {
    && WellFormed(objs) && Covers(objs, Total(slots, ObjectPtrs)) && Sound(tree, Total(slots, ArrayPtrs))
    && |values| == |slots|
    && forall i :: 0 <= i < |slots| ==>
         (slots[i].Some? <==> values[i].Some?)
           && (slots[i].Some? ==> Represents(objs, tree, slots[i].value, values[i].value))
  }

  // ---------- Keeping what the snapshots stand for ----------

  ghost predicate SameItems<V>(a: Slab<V>, b: Slab<V>, live: multiset<Ptr>) {
    forall q :: q in live ==> ItemAt(b, q) == ItemAt(a, q)
  }

  lemma RepresentsStays<V, T>(objs: Slab<V>, tree: Levels<T>, objs': Slab<V>, tree': Levels<T>, liveObjs: multiset<Ptr>,
                              liveArrays: multiset<Ptr>,
                              s: Snapshot, c: Contents<V, T>)
    requires Represents(objs, tree, s, c)
    requires multiset(s.tablePtrs) <= liveObjs && Total(s.instances, PtrsOf) <= liveArrays
    requires SameItems(objs, objs', liveObjs) && Height(tree) == Height(tree') && SameReads(tree, tree', liveArrays)
    ensures Represents(objs', tree', s, c)
  {
    hide StandsFor, At, Height, PtrsOf;
    forall i | 0 <= i < |c.objects| ensures ItemAt(objs', s.tablePtrs[i]) == Some(c.objects[i]) {
      assert s.tablePtrs[i] in multiset(s.tablePtrs);
    }
    forall i | 0 <= i < |c.arrays| ensures StandsFor(tree', s.instances[i], c.arrays[i]) {
      TotalMember(s.instances, PtrsOf, i);
      StandsForStays(tree, tree', liveArrays, s.instances[i], c.arrays[i]);
    }
  }

  /** Slot `i` is replaced, and no pointer of another slot reads differently. */
  lemma ReplaceSlot<V, T>(objs: Slab<V>, tree: Levels<T>, objs': Slab<V>, tree': Levels<T>,
                          slots: seq<Option<Snapshot>>, values: seq<Option<Contents<V, T>>>, i: nat,
                          slot: Option<Snapshot>, value: Option<Contents<V, T>>)
    requires Consistent(objs, tree, slots, values) && i < |slots|
    requires WellFormed(objs') && Covers(objs', TotalBut(slots, ObjectPtrs, i) + ObjectPtrs(slot))
    requires Sound(tree', TotalBut(slots, ArrayPtrs, i) + ArrayPtrs(slot))
    requires SameItems(objs, objs', TotalBut(slots, ObjectPtrs, i))
    requires Height(tree) == Height(tree') && SameReads(tree, tree', TotalBut(slots, ArrayPtrs, i))
    requires (slot.Some? <==> value.Some?) && (slot.Some? ==> Represents(objs', tree', slot.value, value.value))
    ensures Consistent(objs', tree', slots[i := slot], values[i := value])
  {
    hide Sound, WellFormed, Covers, Represents, SameItems, SameReads, Height, Total, TotalBut;
    TotalSplit(slots, ObjectPtrs, i, slot);
    TotalSplit(slots, ArrayPtrs, i, slot);
    forall j | 0 <= j < |slots| && j != i && slots[j].Some?
      ensures Represents(objs', tree', slots[j].value, values[j].value)
    {
      TotalButMember(slots, ObjectPtrs, i, j);
      TotalButMember(slots, ArrayPtrs, i, j);
      RepresentsStays(objs, tree, objs', tree', TotalBut(slots, ObjectPtrs, i), TotalBut(slots, ArrayPtrs, i),
                      slots[j].value, values[j].value);
    }
  }

  /** The pointers of a slot are live. */
  lemma SlotIsLive(slots: seq<Option<Snapshot>>, i: nat)
    requires i < |slots| && slots[i].Some?
    ensures multiset(slots[i].value.tablePtrs) <= Total(slots, ObjectPtrs)
    ensures Total(slots[i].value.instances, PtrsOf) <= Total(slots, ArrayPtrs)
  {
    TotalMember(slots, ObjectPtrs, i);
    TotalMember(slots, ArrayPtrs, i);
  }

  lemma SameItemsRefl<V>(a: Slab<V>, live: multiset<Ptr>)
    ensures SameItems(a, a, live)
  {
  }

  // ---------- Changing one object or one array of a snapshot ----------

  lemma ChangeObject<V, T>(objs: Slab<V>, objs': Slab<V>, tree: Levels<T>, slots: seq<Option<Snapshot>>,
                           values: seq<Option<Contents<V, T>>>,
                           i: nat, k: nat, q: Ptr, v: V)
    requires Consistent(objs, tree, slots, values) && i < |slots| && slots[i].Some? && k < |slots[i].value.tablePtrs|
    requires var live := Total(slots, ObjectPtrs) - multiset{slots[i].value.tablePtrs[k]};
      WellFormed(objs') && Covers(objs', live + multiset{q}) && SameItems(objs, objs', live)
        && ItemAt(objs', q) == Some(v)
    ensures var s, c := slots[i].value, values[i].value;
      Consistent(objs', tree, slots[i := Some(s.(tablePtrs := s.tablePtrs[k := q]))],
        values[i := Some(c.(objects := c.objects[k := v]))])
  {
    hide Sound, WellFormed, StandsFor, ItemAt, Total, TotalBut, Covers, SameReads;
    var s, c := slots[i].value, values[i].value;
    var s', c' := s.(tablePtrs := s.tablePtrs[k := q]), c.(objects := c.objects[k := v]);
    var rest := TotalBut(slots, ObjectPtrs, i);
    TotalSplit(slots, ObjectPtrs, i, Some(s'));
    TotalSplit(slots, ArrayPtrs, i, Some(s'));
    OtherPagesLive(rest, s.tablePtrs, k, q);
    assert rest + multiset(s'.tablePtrs) == Total(slots, ObjectPtrs) - multiset{s.tablePtrs[k]} + multiset{q};
    assert Represents(objs', tree, s', c');
    SameReadsRefl(tree, TotalBut(slots, ArrayPtrs, i));
    FewerSameItems(objs, objs', Total(slots, ObjectPtrs) - multiset{s.tablePtrs[k]}, rest);
    ReplaceSlot(objs, tree, objs', tree, slots, values, i, Some(s'), Some(c'));
  }

  lemma FewerSameItems<V>(a: Slab<V>, b: Slab<V>, live: multiset<Ptr>, fewer: multiset<Ptr>)
    requires SameItems(a, b, live) && fewer <= live
    ensures SameItems(a, b, fewer)
  {
  }

  lemma ChangeArray<V, T>(objs: Slab<V>, tree: Levels<T>, tree': Levels<T>, slots: seq<Option<Snapshot>>,
                          values: seq<Option<Contents<V, T>>>,
                          i: nat, k: nat, live: multiset<Ptr>, inst: Instance, v: ArrayValue<T>)
    requires Consistent(objs, tree, slots, values) && i < |slots| && slots[i].Some? && k < |slots[i].value.instances|
    requires live == TotalBut(slots, ArrayPtrs, i) + TotalBut(slots[i].value.instances, PtrsOf, k)
    requires Updated(tree, tree', live, inst, v)
    ensures var s, c := slots[i].value, values[i].value;
      Consistent(objs, tree', slots[i := Some(s.(instances := s.instances[k := inst]))],
        values[i := Some(c.(arrays := c.arrays[k := v]))])
  {
    hide Sound, WellFormed, StandsFor, ItemAt, Total, TotalBut, Covers, At, Height, PtrsOf;
    var s, c := slots[i].value, values[i].value;
    var s', c' := s.(instances := s.instances[k := inst]), c.(arrays := c.arrays[k := v]);
    TotalSplit(slots, ObjectPtrs, i, Some(s'));
    TotalSplit(s.instances, PtrsOf, k, inst);
    assert live + PtrsOf(inst) == TotalBut(slots, ArrayPtrs, i) + ArrayPtrs(Some(s'));
    forall j | 0 <= j < |c'.arrays| ensures StandsFor(tree', s'.instances[j], c'.arrays[j]) {
      if j != k {
        TotalButMember(s.instances, PtrsOf, k, j);
        StandsForStays(tree, tree', live, s.instances[j], c.arrays[j]);
      }
    }
    SameReadsFewer(tree, tree', live, TotalBut(slots, ArrayPtrs, i));
    SameItemsRefl(objs, TotalBut(slots, ObjectPtrs, i));
    ReplaceSlot(objs, tree, objs, tree', slots, values, i, Some(s'), Some(c'));
  }

  lemma AddObject<V, T>(objs: Slab<V>, tree: Levels<T>, slots: seq<Option<Snapshot>>, values: seq<Option<Contents<V,
                        T>>>, i: nat, p: Ptr, v: V)
    requires Consistent(objs, tree, slots, values) && i < |slots| && slots[i].Some?
    requires Covers(objs, Total(slots, ObjectPtrs) + multiset{p}) && ItemAt(objs, p) == Some(v)
    ensures var s, c := slots[i].value, values[i].value;
      Consistent(objs, tree, slots[i := Some(s.(tablePtrs := s.tablePtrs + [p]))],
        values[i := Some(c.(objects := c.objects + [v]))])
  {
    hide Sound, WellFormed, StandsFor, ItemAt, Total, TotalBut, Covers;
    var s, c := slots[i].value, values[i].value;
    var s', c' := s.(tablePtrs := s.tablePtrs + [p]), c.(objects := c.objects + [v]);
    TotalSplit(slots, ObjectPtrs, i, Some(s'));
    TotalSplit(slots, ArrayPtrs, i, Some(s'));
    assert TotalBut(slots, ObjectPtrs, i) + ObjectPtrs(Some(s')) == Total(slots, ObjectPtrs) + multiset{p};
    assert Represents(objs, tree, s', c');
    SameItemsRefl(objs, TotalBut(slots, ObjectPtrs, i));
    SameReadsRefl(tree, TotalBut(slots, ArrayPtrs, i));
    ReplaceSlot(objs, tree, objs, tree, slots, values, i, Some(s'), Some(c'));
  }

  lemma AddArray<V, T>(objs: Slab<V>, tree: Levels<T>, slots: seq<Option<Snapshot>>, values: seq<Option<Contents<V,
                       T>>>, i: nat,
                       inst: Instance, v: ArrayValue<T>)
    requires Consistent(objs, tree, slots, values) && i < |slots| && slots[i].Some?
    requires Sound(tree, Total(slots, ArrayPtrs) + PtrsOf(inst)) && StandsFor(tree, inst, v)
    ensures var s, c := slots[i].value, values[i].value;
      Consistent(objs, tree, slots[i := Some(s.(instances := s.instances + [inst]))],
        values[i := Some(c.(arrays := c.arrays + [v]))])
  {
    hide Sound, WellFormed, StandsFor, ItemAt, Total, TotalBut, Covers, PtrsOf;
    var s, c := slots[i].value, values[i].value;
    var s', c' := s.(instances := s.instances + [inst]), c.(arrays := c.arrays + [v]);
    TotalSplit(slots, ObjectPtrs, i, Some(s'));
    TotalSplit(slots, ArrayPtrs, i, Some(s'));
    TotalAppend(s.instances, PtrsOf, inst);
    assert TotalBut(slots, ArrayPtrs, i) + ArrayPtrs(Some(s')) == Total(slots, ArrayPtrs) + PtrsOf(inst);
    assert Represents(objs, tree, s', c');
    SameItemsRefl(objs, TotalBut(slots, ObjectPtrs, i));
    SameReadsRefl(tree, TotalBut(slots, ArrayPtrs, i));
    ReplaceSlot(objs, tree, objs, tree, slots, values, i, Some(s'), Some(c'));
  }

  /** An empty slot is filled with a copy that shares every pointer of slot `j`. */
  lemma CopySlot<V, T>(objs: Slab<V>, tree: Levels<T>, objs': Slab<V>, tree': Levels<T>,
                       slots: seq<Option<Snapshot>>, values: seq<Option<Contents<V, T>>>, i: nat, j: nat)
    requires Consistent(objs, tree, slots, values) && i < |slots| && j < |slots| && slots[i].None? && slots[j].Some?
    requires WellFormed(objs') && Covers(objs', Total(slots, ObjectPtrs) + ObjectPtrs(slots[j]))
    requires Sound(tree', Total(slots, ArrayPtrs) + ArrayPtrs(slots[j]))
    requires (forall q: Ptr :: ItemAt(objs', q) == ItemAt(objs, q)) && Unchanged(tree, tree')
    ensures Consistent(objs', tree', slots[i := slots[j]], values[i := values[j]])
    ensures Total(slots[i := slots[j]], ObjectPtrs) == Total(slots, ObjectPtrs) + ObjectPtrs(slots[j])
    ensures Total(slots[i := slots[j]], ArrayPtrs) == Total(slots, ArrayPtrs) + ArrayPtrs(slots[j])
  {
    hide Sound, WellFormed, StandsFor, ItemAt, Total, TotalBut, Covers, PtrsOf, Represents, Unchanged, At, Height;
    TotalSplit(slots, ObjectPtrs, i, slots[j]);
    TotalSplit(slots, ArrayPtrs, i, slots[j]);
    assert TotalBut(slots, ObjectPtrs, i) == Total(slots, ObjectPtrs)
      && TotalBut(slots, ArrayPtrs, i) == Total(slots, ArrayPtrs);
    SlotIsLive(slots, j);
    SameReadsRefl(tree, Total(slots, ArrayPtrs));
    SameReadsUnchanged(tree, tree, tree', Total(slots, ArrayPtrs));
    RepresentsStays(objs, tree, objs', tree', Total(slots, ObjectPtrs), Total(slots, ArrayPtrs), slots[j].value,
                    values[j].value);
    ReplaceSlot(objs, tree, objs', tree', slots, values, i, slots[j], values[j]);
  }

  /** A slot is emptied, and its pointers may be given up. */
  lemma EmptySlot<V, T>(objs: Slab<V>, tree: Levels<T>, objs': Slab<V>, tree': Levels<T>,
                        slots: seq<Option<Snapshot>>, values: seq<Option<Contents<V, T>>>, i: nat)
    requires Consistent(objs, tree, slots, values) && i < |slots|
    requires
      && WellFormed(objs') && Covers(objs', TotalBut(slots, ObjectPtrs, i))
      && Sound(tree', TotalBut(slots, ArrayPtrs, i))
    requires SameItems(objs, objs', TotalBut(slots, ObjectPtrs, i))
    requires Height(tree) == Height(tree') && SameReads(tree, tree', TotalBut(slots, ArrayPtrs, i))
    ensures Consistent(objs', tree', slots[i := None], values[i := None])
  {
    hide Sound, WellFormed, Covers, TotalBut, SameItems, SameReads, Height;
    assert TotalBut(slots, ObjectPtrs, i) + multiset{} == TotalBut(slots, ObjectPtrs, i);
    assert TotalBut(slots, ArrayPtrs, i) + multiset{} == TotalBut(slots, ArrayPtrs, i);
    ReplaceSlot(objs, tree, objs', tree', slots, values, i, None, None);
  }

  /** A snapshot changes places with an empty slot. */
  lemma MoveSlot<V, T>(objs: Slab<V>, tree: Levels<T>, slots: seq<Option<Snapshot>>, values: seq<Option<Contents<V,
                       T>>>, i: nat, j: nat)
    requires Consistent(objs, tree, slots, values) && i < |slots| && j < |slots| && i != j && slots[i].None?
    ensures Consistent(objs, tree, slots[i := slots[j]][j := None], values[i := values[j]][j := None])
  {
    hide Sound, WellFormed, Covers, TotalBut, Total, Represents;
    TotalSplit(slots, ObjectPtrs, i, slots[j]);
    TotalSplit(slots, ArrayPtrs, i, slots[j]);
    var slots' := slots[i := slots[j]];
    TotalSplit(slots', ObjectPtrs, j, None);
    TotalSplit(slots', ArrayPtrs, j, None);
    MoveTotal(Total(slots, ObjectPtrs), Total(slots', ObjectPtrs), Total(slots'[j := None], ObjectPtrs),
      TotalBut(slots, ObjectPtrs, i),
              TotalBut(slots', ObjectPtrs, j), ObjectPtrs(slots[j]));
    MoveTotal(Total(slots, ArrayPtrs), Total(slots', ArrayPtrs), Total(slots'[j := None], ArrayPtrs),
      TotalBut(slots, ArrayPtrs, i),
              TotalBut(slots', ArrayPtrs, j), ArrayPtrs(slots[j]));
  }

  lemma MoveTotal(a: multiset<Ptr>, b: multiset<Ptr>, c: multiset<Ptr>, butI: multiset<Ptr>, butJ: multiset<Ptr>,
                  x: multiset<Ptr>)
    requires a == butI + multiset{} && b == butI + x && b == butJ + x && c == butJ + multiset{}
    ensures c == a
  {
    forall q ensures c[q] == a[q] {
      assert (butI + x)[q] == (butJ + x)[q];
    }
  }

  /** One more slot, still empty. */
  lemma GrowSlots<V, T>(objs: Slab<V>, tree: Levels<T>, slots: seq<Option<Snapshot>>, values: seq<Option<Contents<V,
                        T>>>)
    requires Consistent(objs, tree, slots, values)
    ensures Consistent(objs, tree, slots + [None], values + [None])
    ensures
      && Total(slots + [None], ObjectPtrs) == Total(slots, ObjectPtrs)
      && Total(slots + [None], ArrayPtrs) == Total(slots, ArrayPtrs)
  {
    hide Sound, WellFormed, Covers, Total, Represents;
    TotalAppend(slots, ObjectPtrs, None);
    TotalAppend(slots, ArrayPtrs, None);
    assert Total(slots, ObjectPtrs) + multiset{} == Total(slots, ObjectPtrs)
      && Total(slots, ArrayPtrs) + multiset{} == Total(slots, ArrayPtrs);
  }

  // ---------- The storage ----------

  /** The slab of objects and the storage of arrays. */
  class Storage<V, T> {
    const tables: Table<V>
    const arrays: ArrayStorage<T>

    ghost predicate Valid()
      reads tables, arrays.dataTable, arrays.pageTables
    {
      && tables.Valid() && arrays.Valid()
      && tables as object != arrays.dataTable as object
      && forall i :: 0 <= i < |arrays.pageTables| ==> arrays.pageTables[i] as object != tables as object
    }

    ghost function Objects(): Slab<V>
      reads tables, arrays.dataTable, arrays.pageTables
      requires Valid()
    {
      tables.Value()
    }

    ghost function Arrays(): Levels<T>
      reads tables, arrays.dataTable, arrays.pageTables
      requires Valid()
    {
      arrays.Tree()
    }

    /** Some slab has no room for the next item or reference. */
    ghost predicate OutOfRoom()
      reads tables, arrays.dataTable, arrays.pageTables
      requires Valid()
    {
      Exhausted(Objects()) || RadixTree.OutOfRoom(Arrays())
    }

    /** Every pointer is known to be accounted for. */
    ghost predicate Accounts(liveObjs: multiset<Ptr>, liveArrays: multiset<Ptr>)
      reads tables, arrays.dataTable, arrays.pageTables
      requires Valid()
    {
      WellFormed(Objects()) && Covers(Objects(), liveObjs) && Sound(Arrays(), liveArrays)
    }

    constructor (layers: nat)
      ensures Valid() && Accounts(multiset{}, multiset{}) && |arrays.pageTables| == layers
      ensures Objects() == Slab([], 0) && EmptyTables(Arrays()) && Balance(Arrays()) == 0
      ensures fresh(tables) && fresh(arrays.dataTable) && forall t :: t in arrays.pageTables ==> fresh(t)
    {
      hide Sound, Covers, WellFormed, Separate, AllValid, LevelsOf, EmptyTables, Balance;
      var t := new Table<V>();
      TableIsWellFormed(t);
      var a := new ArrayStorage<T>(layers);
      forall i | 0 <= i < |a.pageTables| ensures a.pageTables[i] as object != t as object {
        assert a.pageTables[i] in a.pageTables;
      }
      NothingLive(t);
      tables, arrays := t, a;
    }

    /** Shares every object and page of a snapshot with a copy of it; done exactly when all these
        references fit. */
    method CloneSnapshot(snapshot: Snapshot, ghost liveObjs: multiset<Ptr>,
                         ghost liveArrays: multiset<Ptr>) returns (copy: Outcome<Snapshot>)
      requires Valid() && Accounts(liveObjs, liveArrays)
      requires ObjectPtrs(Some(snapshot)) <= liveObjs && ArrayPtrs(Some(snapshot)) <= liveArrays
      modifies tables, arrays.dataTable, arrays.pageTables
      ensures Valid() && (copy.Overflow? ==> OutOfRoom())
      ensures copy.Done? <==>
        SlabCloneFits(old(Objects()), ObjectPtrs(Some(snapshot))) && CloneFits(old(Arrays()), ArrayPtrs(Some(snapshot)))
      ensures copy.Done? ==>
        && Objects() == SlabCloned(old(Objects()), ObjectPtrs(Some(snapshot)))
        && Arrays() == Cloned(old(Arrays()), ArrayPtrs(Some(snapshot)))
      ensures copy.Done? ==>
        && copy.value == snapshot
        && Accounts(liveObjs + ObjectPtrs(Some(snapshot)), liveArrays + ArrayPtrs(Some(snapshot)))
        && (forall q: Ptr :: ItemAt(Objects(), q) == ItemAt(old(Objects()), q)) && Unchanged(old(Arrays()), Arrays())
    {
      hide Sound, WellFormed, Covers, At, Unchanged, Total, PtrsOf, ItemAt, Separate, AllValid, LevelsOf,
           RadixTree.OutOfRoom,
           Exhausted, SlabCloned, SlabCloneFits, Cloned, CloneFits;
      var tablePtrs :- CloneObjects(tables, snapshot.tablePtrs, liveObjs);
      var instances :- CloneInstances(arrays, snapshot.instances, liveArrays);
      copy := Done(Snapshot(tablePtrs, instances));
    }

    /** Gives up every object and page of a snapshot. */
    method DeleteSnapshot(snapshot: Snapshot, ghost liveObjs: multiset<Ptr>, ghost liveArrays: multiset<Ptr>)
      requires Valid() && Accounts(liveObjs + ObjectPtrs(Some(snapshot)), liveArrays + ArrayPtrs(Some(snapshot)))
      modifies tables, arrays.dataTable, arrays.pageTables
      ensures Valid() && Accounts(liveObjs, liveArrays)
      ensures SameItems(old(Objects()), Objects(), liveObjs)
      ensures Height(Arrays()) == Height(old(Arrays())) && SameReads(old(Arrays()), Arrays(), liveArrays)
      ensures SlabGrew(old(Objects()), Objects(), 0, 0) && TreeGrew(old(Arrays()), Arrays(), 0, 0)
      ensures RefSum(Objects().cells) == old(RefSum(Objects().cells)) - |ObjectPtrs(Some(snapshot))|
      ensures Balance(Arrays())
        == old(Balance(Arrays())) - |ArrayPtrs(Some(snapshot))| + |snapshot.instances|
    {
      hide SlabGrew, TreeGrew, Sound, WellFormed, Covers, At, Height, Total, PtrsOf, ItemAt, SameItems, SameReads,
           Separate, AllValid, LevelsOf, RefSum, Balance;
      DropObjects(tables, snapshot.tablePtrs, liveObjs);
      DropInstances(arrays, snapshot.instances, liveArrays);
    }
  }

  method CloneObjects<V>(t: Table<V>, ptrs: seq<Ptr>, ghost live: multiset<Ptr>) returns (r: Outcome<seq<Ptr>>)
    requires t.Valid() && Covers(t.Value(), live) && multiset(ptrs) <= live
    modifies t
    ensures t.Valid() && (r.Overflow? ==> Exhausted(t.Value()))
    ensures r.Done? <==> SlabCloneFits(old(t.Value()), multiset(ptrs))
    ensures r.Done? ==> t.Value() == SlabCloned(old(t.Value()), multiset(ptrs))
    ensures r.Done? ==>
      && r.value == ptrs && WellFormed(t.Value()) && Covers(t.Value(), live + multiset(ptrs))
      && forall q: Ptr :: ItemAt(t.Value(), q) == ItemAt(old(t.Value()), q)
  {
    hide Covers, ItemAt, WellFormed, SlabCloned, SlabCloneFits;
    ghost var a := t.Value();
    TableIsWellFormed(t);
    SlabClonedNone(a);
    var copies: seq<Ptr> := [];
    var k := 0;
    assert live + multiset(ptrs[..0]) == live;
    while k < |ptrs|
      invariant 0 <= k <= |ptrs| && copies == ptrs[..k]
      invariant t.Valid()
      invariant WellFormed(t.Value()) && Covers(t.Value(), live + multiset(ptrs[..k]))
      invariant forall q: Ptr :: ItemAt(t.Value(), q) == ItemAt(a, q)
      invariant t.Value() == SlabCloned(a, multiset(ptrs[..k])) && SlabCloneFits(a, multiset(ptrs[..k]))
    {
      ghost var b, live' := t.Value(), live + multiset(ptrs[..k]);
      assert ptrs[k] in multiset(ptrs);
      LiveObject(b, live', ptrs[k]);
      AddRefKeeps(b, ptrs[k]);
      AddRefCovers(b, live', ptrs[k]);
      NextPtr(ptrs, k);
      LiveObject(a, live, ptrs[k]);
      SlabCloneOneMore(a, multiset(ptrs[..k]), ptrs[k]);
      var copy := t.CloneTablePtr(ptrs[k]);
      if copy.Overflow? {
        SlabCloneTooMany(a, multiset(ptrs[..k]), ptrs[k], multiset(ptrs));
        return Overflow;
      }
      assert live' + multiset{ptrs[k]} == live + multiset(ptrs[..k + 1]);
      copies := copies + [copy.value];
      k := k + 1;
    }
    assert ptrs[..k] == ptrs;
    r := Done(copies);
  }

  method DropObjects<V>(t: Table<V>, ptrs: seq<Ptr>, ghost live: multiset<Ptr>)
    requires t.Valid() && Covers(t.Value(), live + multiset(ptrs))
    modifies t
    ensures t.Valid()
    ensures WellFormed(t.Value()) && Covers(t.Value(), live) && SameItems(old(t.Value()), t.Value(), live)
    ensures SlabGrew(old(t.Value()), t.Value(), 0, 0)
    ensures RefSum(t.Value().cells) == old(RefSum(t.Value().cells)) - |ptrs|
  {
    hide Covers, ItemAt, WellFormed, SlabGrew, RefSum;
    ghost var a := t.Value();
    TableIsWellFormed(t);
    SlabGrewRefl(a);
    assert ptrs[0..] == ptrs;
    var k := 0;
    while k < |ptrs|
      invariant 0 <= k <= |ptrs|
      invariant t.Valid()
      invariant WellFormed(t.Value()) && Covers(t.Value(), live + multiset(ptrs[k..]))
      invariant SameItems(a, t.Value(), live) && SlabGrew(a, t.Value(), 0, 0)
      invariant RefSum(t.Value().cells) == RefSum(a.cells) - k
    {
      ghost var b, rest := t.Value(), live + multiset(ptrs[k + 1..]);
      assert ptrs[k..] == [ptrs[k]] + ptrs[k + 1..];
      assert live + multiset(ptrs[k..]) == rest + multiset{ptrs[k]};
      RemoveRefCovers(b, rest, ptrs[k]);
      RemoveRefGrew(b, ptrs[k]);
      RemoveRefSum(b, ptrs[k]);
      t.DropTablePtr(ptrs[k]);
      SlabGrewTrans(a, b, t.Value(), 0, 0, 0, 0);
      forall q | q in live ensures ItemAt(t.Value(), q) == ItemAt(a, q) {
        assert q in rest;
      }
      k := k + 1;
    }
    assert live + multiset(ptrs[k..]) == live;
  }

  method CloneInstances<T>(arrays: ArrayStorage<T>, instances: seq<Instance>,
                           ghost live: multiset<Ptr>) returns (r: Outcome<seq<Instance>>)
    requires arrays.Valid() && Sound(arrays.Tree(), live) && Total(instances, PtrsOf) <= live
    modifies arrays.dataTable, arrays.pageTables
    ensures arrays.Valid() && (r.Overflow? ==> OutOfRoom(arrays.Tree()))
    ensures r.Done? <==> CloneFits(old(arrays.Tree()), Total(instances, PtrsOf))
    ensures r.Done? ==>
      && r.value == instances && arrays.Tree() == Cloned(old(arrays.Tree()), Total(instances, PtrsOf))
      && Sound(arrays.Tree(), live + Total(instances, PtrsOf)) && Unchanged(old(arrays.Tree()), arrays.Tree())
  {
    hide Sound, WellFormed, Covers, At, Unchanged, PtrsOf, AllValid, LevelsOf, Separate, Total, OutOfRoom, Cloned,
         CloneFits;
    ghost var a := arrays.Tree();
    UnchangedRefl(a);
    var copies: seq<Instance> := [];
    var k := 0;
    NothingCloned(live, instances);
    ClonedNone(a);
    while k < |instances|
      invariant 0 <= k <= |instances| && copies == instances[..k]
      invariant arrays.Valid()
      invariant Sound(arrays.Tree(), live + Total(instances[..k], PtrsOf)) && Unchanged(a, arrays.Tree())
      invariant arrays.Tree() == Cloned(a, Total(instances[..k], PtrsOf)) && CloneFits(a, Total(instances[..k], PtrsOf))
    {
      ghost var b, live' := arrays.Tree(), live + Total(instances[..k], PtrsOf);
      TotalMember(instances, PtrsOf, k);
      assert PtrsOf(instances[k]) <= live';
      assert instances[..k + 1] == instances[..k] + [instances[k]];
      TotalAppend(instances[..k], PtrsOf, instances[k]);
      assert live' + PtrsOf(instances[k]) == live + Total(instances[..k + 1], PtrsOf);
      ClonedMore(a, Total(instances[..k], PtrsOf), PtrsOf(instances[k]));
      TotalPrefix(instances, PtrsOf, k + 1);
      var copy := arrays.CloneInstance(instances[k], live');
      if copy.Overflow? {
        TooManyInstances(a, Total(instances[..k + 1], PtrsOf), Total(instances, PtrsOf));
        return Overflow;
      }
      UnchangedTrans(a, b, arrays.Tree());
      copies := copies + [copy.value];
      k := k + 1;
    }
    assert instances[..k] == instances;
    r := Done(copies);
  }

  lemma TooManyInstances<T>(lv: Levels<T>, some: multiset<Ptr>, all: multiset<Ptr>)
    requires !CloneFits(lv, some) && some <= all
    ensures !CloneFits(lv, all)
  {
    if CloneFits(lv, all) {
      CloneFitsFewer(lv, all, some);
    }
  }

  lemma TotalPrefix<X>(xs: seq<X>, f: X -> multiset<Ptr>, k: nat)
    requires k <= |xs|
    ensures Total(xs[..k], f) <= Total(xs, f)
  {
    TotalConcat(xs[..k], xs[k..], f);
    assert xs[..k] + xs[k..] == xs;
  }

  method DropInstances<T>(arrays: ArrayStorage<T>, instances: seq<Instance>, ghost live: multiset<Ptr>)
    requires arrays.Valid() && Sound(arrays.Tree(), live + Total(instances, PtrsOf))
    modifies arrays.dataTable, arrays.pageTables
    ensures arrays.Valid()
    ensures Height(arrays.Tree()) == Height(old(arrays.Tree()))
    ensures Sound(arrays.Tree(), live) && SameReads(old(arrays.Tree()), arrays.Tree(), live)
    ensures TreeGrew(old(arrays.Tree()), arrays.Tree(), 0, 0)
    ensures Balance(arrays.Tree()) == old(Balance(arrays.Tree())) - |Total(instances, PtrsOf)| + |instances|
  {
    hide Sound, WellFormed, Covers, At, PtrsOf, AllValid, LevelsOf, Separate, SameReads, Height, Total, TreeGrew,
         Balance;
    ghost var a := arrays.Tree();
    SameReadsRefl(a, live);
    TreeGrewRefl(a, 0, 0);
    assert instances[0..] == instances;
    var k := 0;
    while k < |instances|
      invariant 0 <= k <= |instances|
      invariant arrays.Valid() && Height(arrays.Tree()) == Height(a)
      invariant Sound(arrays.Tree(), live + Total(instances[k..], PtrsOf)) && SameReads(a, arrays.Tree(), live)
      invariant TreeGrew(a, arrays.Tree(), 0, 0)
      invariant Balance(arrays.Tree())
        == Balance(a) - |Total(instances, PtrsOf)| + |Total(instances[k..], PtrsOf)| + k
    {
      ghost var b, rest := arrays.Tree(), live + Total(instances[k + 1..], PtrsOf);
      TotalTake(instances, PtrsOf, k, live);
      TotalTake(instances, PtrsOf, k, multiset{});
      PointerCount(instances[k]);
      assert |Total(instances[k..], PtrsOf)| == |Total(instances[k + 1..], PtrsOf)| + |PtrsOf(instances[k])| by {
        assert multiset{} + Total(instances[k..], PtrsOf) == Total(instances[k..], PtrsOf);
        assert multiset{} + Total(instances[k + 1..], PtrsOf) == Total(instances[k + 1..], PtrsOf);
      }
      arrays.DropInstance(instances[k], rest);
      SameReadsTrans(a, b, arrays.Tree(), live, rest);
      TreeGrewTrans(a, b, arrays.Tree(), 0, 0, 0, 0);
      k := k + 1;
    }
    NothingLeft(live, instances, k);
    assert live + Total(instances[k..], PtrsOf) == live;
  }

  /** An instance points to its pages, and to the page it is reset to. */
  lemma PointerCount(inst: Instance)
    ensures |PtrsOf(inst)| == |inst.pages| + 1
  {
  }

  lemma NothingCloned(live: multiset<Ptr>, instances: seq<Instance>)
    ensures Total(instances[..0], PtrsOf) == multiset{} && live + Total(instances[..0], PtrsOf) == live
  {
  }

  lemma NothingLeft(live: multiset<Ptr>, instances: seq<Instance>, k: nat)
    requires k == |instances|
    ensures live + Total(instances[k..], PtrsOf) == live && |Total(instances[k..], PtrsOf)| == 0
  {
  }

  lemma TotalTake<X>(xs: seq<X>, f: X -> multiset<Ptr>, k: nat, live: multiset<Ptr>)
    requires k < |xs|
    ensures live + Total(xs[k..], f) == live + Total(xs[k + 1..], f) + f(xs[k])
  {
    assert xs[k..] == [xs[k]] + xs[k + 1..];
    TotalConcat([xs[k]], xs[k + 1..], f);
    assert [xs[k]] == [] + [xs[k]];
    TotalAppend([], f, xs[k]);
  }

  lemma RemoveRefCovers<V>(s: Slab<V>, live: multiset<Ptr>, p: Ptr)
    requires WellFormed(s) && Covers(s, live + multiset{p})
    ensures InUse(s, p) && s.cells[p].refs >= 1
    ensures var t := RemoveRef(s, p);
      WellFormed(t) && Covers(t, live) && forall q: Ptr :: q in live ==> ItemAt(t, q) == ItemAt(s, q)
  {
    assert p in live + multiset{p};
    RemoveRefKeeps(s, p);
  }

  lemma NothingLive<V>(t: Table<V>)
    requires t.Valid() && t.Value() == Slab([], 0)
    ensures Covers(t.Value(), multiset{})
  {
  }

  lemma TableIsWellFormed<V>(t: Table<V>)
    requires t.Valid()
    ensures WellFormed(t.Value())
  {
  }

  lemma LiveObject<V>(s: Slab<V>, live: multiset<Ptr>, p: Ptr)
    requires Covers(s, live) && p in live
    ensures InUse(s, p)
  {
  }

  // ---------- Objects ----------

  method InsertObject<V>(t: Table<V>, item: V, ghost live: multiset<Ptr>) returns (p: Outcome<Ptr>)
    requires t.Valid() && Covers(t.Value(), live)
    modifies t
    ensures t.Valid() && (p.Overflow? ==> Exhausted(t.Value()))
    ensures p.Done? <==> HasSlot(old(t.Value()))
    ensures p.Done? ==>
      SlabGrew(old(t.Value()), t.Value(), 1, 0) && RefSum(t.Value().cells) == old(RefSum(t.Value().cells)) + 1
    ensures p.Done? ==>
      && WellFormed(t.Value()) && Covers(t.Value(), live + multiset{p.value})
      && SameItems(old(t.Value()), t.Value(), live) && ItemAt(t.Value(), p.value) == Some(item)
  {
    hide SlabGrew, RefSum;
    AddItemKeeps(t.Value(), item);
    AddItemGrew(t.Value(), item);
    AddItemSum(t.Value(), item);
    p := t.AddItem(item);
  }

  /** A shared object costs a slot to write, one with a single owner costs nothing. */
  function ObjectCost<V>(s: Slab<V>, p: Ptr): nat {
    if InUse(s, p) && s.cells[p].refs == 1 then 0 else 1
  }

  /** Writes an object through the mutable reference that only a sole owner is given. */
  method WriteObject<V>(t: Table<V>, p: Ptr, item: V, ghost live: multiset<Ptr>) returns (r: Outcome<Ptr>)
    requires t.Valid() && Covers(t.Value(), live + multiset{p})
    modifies t
    ensures t.Valid() && (r.Overflow? ==> Exhausted(t.Value()))
    ensures r.Done? <==> old(ObjectCost(t.Value(), p)) == 0 || HasSlot(old(t.Value()))
    ensures r.Done? ==>
      && SlabGrew(old(t.Value()), t.Value(), old(ObjectCost(t.Value(), p)), 0)
      && RefSum(t.Value().cells) == old(RefSum(t.Value().cells))
    ensures r.Done? ==>
      && WellFormed(t.Value()) && Covers(t.Value(), live + multiset{r.value})
      && SameItems(old(t.Value()), t.Value(), live) && ItemAt(t.Value(), r.value) == Some(item)
  {
    hide WellFormed, Shadow, Covers, SlabGrew, RefSum;
    ghost var a := t.Value();
    TableIsWellFormed(t);
    OwnedObject(a, live, p);
    SlabGrewRefl(a);
    var q := p;
    var unique := t.IsUniqueTablePtr(p);
    if !unique {
      SharedObject(a, live, p);
      ShadowGrew(a, p);
      ShadowSum(a, p);
      q :- t.CloneItem(p);
    }
    OwnedWrite(a, t.Value(), live, q, item);
    SetItemGrew(t.Value(), q, item);
    SetItemSum(t.Value(), q, item);
    SlabGrewTrans(a, t.Value(), SetItem(t.Value(), q, item), ObjectCost(a, p), 0, 0, 0);
    t.SetItem(q, item);
    r := Done(q);
  }

  lemma OwnedObject<V>(s: Slab<V>, live: multiset<Ptr>, p: Ptr)
    requires WellFormed(s) && Covers(s, live + multiset{p})
    ensures InUse(s, p) && s.cells[p].refs >= 1 && SameItems(s, s, live)
    ensures s.cells[p].refs == 1 ==> p !in live
  {
  }

  lemma SharedObject<V>(s: Slab<V>, live: multiset<Ptr>, p: Ptr)
    requires WellFormed(s) && Covers(s, live + multiset{p}) && InUse(s, p) && s.cells[p].refs > 1
    ensures s.nextEmpty <= |s.cells|
    ensures s.nextEmpty < |s.cells| ==> s.cells[s.nextEmpty].Empty?
    ensures var (t, q) := Shadow(s, p);
      && WellFormed(t) && Covers(t, live + multiset{q}) && SameItems(s, t, live)
      && q !in live && InUse(t, q) && t.cells[q].refs == 1
  {
    hide WellFormed, Shadow, Covers;
    assert p in live + multiset{p};
    ShadowKeeps(s, live + multiset{p}, p);
    var q := Shadow(s, p).1;
    assert live + multiset{p} - multiset{p} + multiset{q} == live + multiset{q};
    forall x | x in live ensures ItemAt(Shadow(s, p).0, x) == ItemAt(s, x) {
      assert x in live + multiset{p};
    }
  }

  lemma OwnedWrite<V>(a: Slab<V>, s: Slab<V>, live: multiset<Ptr>, q: Ptr, item: V)
    requires WellFormed(s) && Covers(s, live + multiset{q}) && SameItems(a, s, live)
    requires q !in live && InUse(s, q)
    ensures var t := SetItem(s, q, item);
      WellFormed(t) && Covers(t, live + multiset{q}) && SameItems(a, t, live) && ItemAt(t, q) == Some(item)
  {
    SetItemKeeps(s, q, item);
  }
}
