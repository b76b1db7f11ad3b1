/** Whole runs of the allocator: they do what the plain timeline does, so a snapshot that is checked
    out again reads exactly as HEAD did when it was made. A run stops early only before a command that
    the state it has reached has no room for. */
module Histories {
  import opened Options
  import opened Slabs
  import opened RadixTree
  import opened Rooms
  import opened ArrayStorages
  import opened Timelines
  import opened Storages
  import opened Heads
  import opened Commands
  import opened Needs
  import opened Leaks
  import opened SpaceTimes

  /** Carries out one command; its answer is dropped. */
  method Execute<V, T>(st: SpaceTime<V, T>, command: Command<V, T>) returns (done: Outcome<()>)
    requires st.Valid()
    modifies st, st.storage.tables, st.storage.arrays.dataTable, st.storage.arrays.pageTables
    ensures done.Done? ==>
      && st.Valid() && Stepped(old(st.Now()), command, st.Now())
      && Conserves(old(st.Now()), command, st.Now())
    ensures done.Overflow? ==> st.Stopped() && st.model == old(st.model)
    ensures old(Fits(st.Now(), command)) ==> done.Done?
  {
    hide Models, Separate, AllValid, LevelsOf, OutOfRoom, Took, Fits, Conserves;
    match command {
      case Insert(item) => var _ :- st.Insert(item);
      case InsertArray(fill, size) => var _ :- st.InsertArray(fill, size);
      case SetObject(id, item) => var _ :- st.SetObject(id, item);
      case SetItem(id, index, value) => var _ :- st.SetItem(id, index, value);
      case WriteItems(id, index, buf) => var _ :- st.WriteItems(id, index, buf);
      case ResetArray(id) => var _ :- st.ResetArray(id);
      case MakeSnapshot => var _ :- st.MakeSnapshot();
      case DropSnapshot(id) => var _ := st.DropSnapshot(id);
      case Checkout(id) => var _ := st.Checkout(id);
    }
    done := Done(());
  }

  /** Every run of the allocator is a run of the plain timeline: it is carried out in whole, or up to the
      first command that does not fit the state it has reached. `states` are the states it went through.
      A run for which there is room in the beginning is carried out in whole. */
  method ExecuteAll<V, T>(st: SpaceTime<V, T>, commands: seq<Command<V, T>>)
    returns (done: nat, ghost states: seq<State<V, T>>)
    requires st.Valid()
    modifies st, st.storage.tables, st.storage.arrays.dataTable, st.storage.arrays.pageTables
    ensures done <= |commands| && st.model == Run(old(st.model), commands[..done])
    ensures IsRun(states, commands[..done]) && states[0] == old(st.Now())
    ensures done == |commands| ==> st.Valid() && st.Now() == states[done]
    ensures done == |commands| ==>
      Leak(st.Now()) == old(Leak(st.Now())) + RunLeaks(st.Layers(), old(st.model), commands)
    ensures done < |commands| ==> st.Stopped() && !Fits(states[done], commands[done])
    ensures old(HasRoom(st.Now(), RunSlots(st.Layers(), st.model, commands), RunRefs(st.Layers(), st.model, commands)))
      ==> done == |commands|
  {
    hide Models, Separate, AllValid, LevelsOf, Step, OutOfRoom, IsRun, HasRoom, RunSlots, RunRefs, Fits, Stepped, Leak,
         LeakedBy;
    ghost var m := st.model;
    done := 0;
    states := [st.Now()];
    RunOfNone(states, commands);
    while done < |commands|
      invariant 0 <= done <= |commands| && st.Valid()
      invariant st.model == Run(m, commands[..done])
      invariant |states| == done + 1 && IsRun(states, commands[..done])
      invariant states[0] == old(st.Now()) && states[done] == st.Now()
      invariant Leak(st.Now()) == old(Leak(st.Now())) + RunLeaks(st.Layers(), m, commands[..done])
    {
      assert commands[..done + 1][..done] == commands[..done];
      var fits := Execute(st, commands[done]);
      if fits.Overflow? {
        NotInRoom(states, commands, done);
        return;
      }
      StepModel(states[done], commands[done], st.Now());
      states := RunLonger(states, commands, done, st.Now());
      done := done + 1;
    }
    assert commands[..done] == commands;
  }

  lemma RunOfNone<V, T>(states: seq<State<V, T>>, commands: seq<Command<V, T>>)
    requires |states| == 1
    ensures IsRun(states, commands[..0])
  {
  }

  lemma StepModel<V, T>(a: State<V, T>, command: Command<V, T>, b: State<V, T>)
    requires Stepped(a, command, b)
    ensures b.model == Step(a.model, command)
  {
  }

  lemma RunLonger<V, T>(states: seq<State<V, T>>, commands: seq<Command<V, T>>, n: nat, last: State<V, T>)
    returns (longer: seq<State<V, T>>)
    requires
      && n < |commands| && |states| == n + 1 && IsRun(states, commands[..n]) && Stepped(states[n], commands[n], last)
    ensures longer == states + [last] && IsRun(longer, commands[..n + 1])
  {
    longer := states + [last];
    forall i | 0 <= i < n + 1 ensures Stepped(longer[i], commands[..n + 1][i], longer[i + 1]) {
      assert i < n ==> commands[..n][i] == commands[i];
    }
  }

  lemma NotInRoom<V, T>(states: seq<State<V, T>>, commands: seq<Command<V, T>>, n: nat)
    requires n < |commands| && IsRun(states, commands[..n]) && IsValid(states[0]) && !Fits(states[n], commands[n])
    ensures var a := states[0];
      !HasRoom(a, RunSlots(Height(a.tree), a.model, commands), RunRefs(Height(a.tree), a.model, commands))
  {
    var a := states[0];
    if HasRoom(a, RunSlots(Height(a.tree), a.model, commands), RunRefs(Height(a.tree), a.model, commands)) {
      RunFits(states, commands, n);
    }
  }

  /** From a new allocator, a run is carried out in whole if no slab comes to hold more than `LIMIT`
      items and no item to have more than `LIMIT` references. What it leaks can be told from the plain
      timeline as well. */
  method ExecuteFromNew<V, T>(layers: nat, commands: seq<Command<V, T>>) returns (st: SpaceTime<V, T>, done: nat)
    ensures fresh(st) && done <= |commands|
    ensures var empty := Timeline(Contents([], []), None, []);
      && st.model == Run(empty, commands[..done])
      && (RunSlots(layers, empty, commands) <= LIMIT && RunRefs(layers, empty, commands) < LIMIT ==> done == |commands|)
    ensures done == |commands| ==>
      st.Valid() && Leak(st.Now()) == RunLeaks(layers, Timeline(Contents([], []), None, []), commands)
  {
    hide Models, Separate, AllValid, LevelsOf, Step, OutOfRoom, IsRun, RunSlots, RunRefs, Fits, HasRoom, Leak,
         RunLeaks;
    st := new SpaceTime(layers);
    assert forall i :: 0 <= i < |st.storage.arrays.pageTables| ==>
      st.storage.arrays.pageTables[i] in st.storage.arrays.pageTables;
    ghost var states;
    done, states := ExecuteAll(st, commands);
  }

  /** From a new allocator, any run of at most 65536 commands that creates no arrays is carried out in whole. */
  method ExecuteOnObjects<V, T>(layers: nat, commands: seq<Command<V, T>>) returns (st: SpaceTime<V, T>)
    requires |commands| <= 65536 && forall c :: c in commands ==> OnObjects(c)
    ensures fresh(st) && st.Valid() && st.model == Run(Timeline(Contents([], []), None, []), commands)
  {
    hide Models, Separate, AllValid, LevelsOf, Step, OutOfRoom, RunSlots, RunRefs, RunLeaks, Leak;
    ObjectRunFits(layers, commands);
    var done;
    st, done := ExecuteFromNew(layers, commands);
    assert commands[..|commands|] == commands;
  }

  /** Snapshot isolation: a snapshot is made, any run that does not drop it follows, and it is checked
      out again. Every object and every array item then reads as it did before. */
  method SnapshotIsolation<V, T>(st: SpaceTime<V, T>, commands: seq<Command<V, T>>, id: nat, arrayId: nat, index: nat)
    returns (ok: Outcome<bool>, before: Lookup<V>, after: Lookup<V>, itemBefore: Lookup<Option<T>>,
      itemAfter: Lookup<Option<T>>)
    requires st.Valid() && DropSnapshot(|st.model.snapshots|) !in commands
    modifies st, st.storage.tables, st.storage.arrays.dataTable, st.storage.arrays.pageTables
    ensures ok.Done? ==>
      && st.Valid() && ok.value && st.model.head == old(st.model.head)
      && before == after && itemBefore == itemAfter
    ensures ok.Overflow? ==> st.Stopped()
    ensures var all := [MakeSnapshot] + commands;
      old(HasRoom(st.Now(), RunSlots(st.Layers(), st.model, all), RunRefs(st.Layers(), st.model, all))) ==> ok.Done?
  {
    hide Models, Separate, AllValid, LevelsOf, Run, Step, OutOfRoom, IsRun, HasRoom, RunSlots, RunRefs, Fits, Leak;
    ghost var m := st.model;
    ModelIsValid(st);
    var snapshot := |st.snapshots|;
    SnapshotSteps(m, |m.snapshots|);
    SnapshotSteps(Run(Step(m, MakeSnapshot), commands), |m.snapshots|);
    before := st.Get(id);
    itemBefore := st.GetItem(arrayId, index);
    after, itemAfter := before, itemBefore;
    CheckoutRestores(m, commands);
    RunFrom(m, MakeSnapshot, commands);
    var all := [MakeSnapshot] + commands;
    ghost var states;
    var done;
    done, states := ExecuteAll(st, all);
    if done < |all| {
      return Overflow, before, after, itemBefore, itemAfter;
    }
    assert all[..done] == all;
    var found := st.Checkout(snapshot);
    after := st.Get(id);
    itemAfter := st.GetItem(arrayId, index);
    ok := Done(found);
  }

  lemma {:induction false} RunFrom<V, T>(m: Timeline<Contents<V, T>>, first: Command<V, T>, commands: seq<Command<V,
                                         T>>)
    ensures Run(m, [first] + commands) == Run(Step(m, first), commands)
  {
    hide Step;
    var all := [first] + commands;
    if commands == [] {
      assert all[..0] == [];
      assert Run(m, all) == Step(Run(m, all[..0]), first);
    } else {
      var n := |commands| - 1;
      assert all[..n + 1] == [first] + commands[..n];
      RunFrom(m, first, commands[..n]);
    }
  }

  lemma SnapshotSteps<V, T>(m: Timeline<Contents<V, T>>, id: SnapshotId)
    ensures Step(m, MakeSnapshot) == m.MakeSnapshot()
    ensures m.Has(id) ==> Step(m, Command.Checkout(id)) == m.Checkout(id)
  {
  }

  lemma ModelIsValid<V, T>(st: SpaceTime<V, T>)
    requires st.Valid()
    ensures st.model.Valid() && |st.model.snapshots| == |st.snapshots|
  {
  }
}
