/** The simulator over the allocator it is used with: when every tick edits HEAD by commands, what the
    simulator asks of the allocator is itself a run of commands, and the store that carries it out holds
    the state that the log says. */
module Backings {
  import opened Options
  import opened Timelines
  import opened Storages
  import opened Commands
  import opened Rooms
  import opened Needs
  import opened SpaceTimes
  import opened Histories
  import Simulators
  import Replays

  /** The commands change HEAD only, and there is at least one. */
  ghost predicate Edits<V, T>(commands: seq<Command<V, T>>) {
    commands != [] && forall c :: c in commands ==> !c.MakeSnapshot? && !c.DropSnapshot? && !c.Checkout?
  }

  function ApplyAll<V, T>(c: Contents<V, T>, commands: seq<Command<V, T>>): Contents<V, T> {
    if commands == [] then c else Commands.Apply(ApplyAll(c, commands[..|commands| - 1]), commands[|commands| - 1])
  }

  lemma {:induction false} EditsRun<V, T>(m: Timeline<Contents<V, T>>, commands: seq<Command<V, T>>)
    requires Edits(commands)
    ensures Run(m, commands) == m.Change(ApplyAll(m.head, commands))
  {
    hide Commands.Apply;
    var n := |commands| - 1;
    assert commands[n] in commands;
    if n > 0 {
      assert forall c :: c in commands[..n] ==> c in commands;
      EditsRun(m, commands[..n]);
    } else {
      assert commands[..n] == [];
    }
  }

  lemma {:induction false} RunConcat<V, T>(m: Timeline<Contents<V, T>>, a: seq<Command<V, T>>, b: seq<Command<V, T>>)
    ensures Run(m, a + b) == Run(Run(m, a), b)
  {
    hide Step;
    if b == [] {
      assert a + b == a;
    } else {
      var n := |b| - 1;
      assert (a + b)[..|a| + n] == a + b[..n];
      RunConcat(m, a, b[..n]);
    }
  }

  /** Which commands a tick stands for. */
  type Code<!V, !T> = (Contents<V, T> -> Contents<V, T>) -> seq<Command<V, T>>

  ghost predicate Coded<V(!new), T(!new)>(code: Code<V, T>, f: Contents<V, T> -> Contents<V, T>) {
    Edits(code(f)) && forall c :: f(c) == ApplyAll(c, code(f))
  }

  /** Every list of commands that change HEAD is such a tick, on any contents. */
  lemma TicksAreCoded<V(!new), T(!new)>(commands: seq<Command<V, T>>)
    requires commands != []
    requires forall c :: c in commands ==>
      c.Insert? || c.InsertArray? || c.SetObject? || c.SetItem? || c.WriteItems? || c.ResetArray?
    ensures Coded(f => commands, c => ApplyAll(c, commands))
  {
    hide ApplyAll;
  }

  function Translated<V, T>(code: Code<V, T>, r: Simulators.Request<Contents<V, T>>): seq<Command<V, T>> {
    match r
    case Tick(run) => code(run)
    case Save => [MakeSnapshot]
    case Forget(id) => [DropSnapshot(id)]
    case Restore(id) => [Command.Checkout(id)]
  }

  function AllTranslated<V, T>(code: Code<V, T>, requests: seq<Simulators.Request<Contents<V,
                               T>>>): seq<Command<V, T>> {
    if requests == [] then []
    else AllTranslated(code, requests[..|requests| - 1]) + Translated(code, requests[|requests| - 1])
  }

  lemma TranslatedRun<V(!new), T(!new)>(code: Code<V, T>, m: Timeline<Contents<V, T>>, r: Simulators.Request<Contents<V,
                        T>>)
    requires r.Tick? ==> Coded(code, r.run)
    ensures Run(m, Translated(code, r)) == Simulators.Requested(m, r)
  {
    hide ApplyAll;
    match r
    case Tick(run) => EditsRun(m, code(run));
    case _ => assert Translated(code, r)[..0] == [];
  }

  /** What the simulator asks for is a run of commands. */
  lemma {:induction false} RequestsAreCommands<V(!new), T(!new)>(code: Code<V, T>, m: Timeline<Contents<V, T>>,
                                                    requests: seq<Simulators.Request<Contents<V, T>>>)
    requires forall r :: r in requests && r.Tick? ==> Coded(code, r.run)
    ensures Run(m, AllTranslated(code, requests)) == Simulators.AllRequested(m, requests)
  {
    hide Coded, Translated, Simulators.Requested;
    if requests != [] {
      var n := |requests| - 1;
      assert forall r :: r in requests[..n] ==> r in requests;
      RequestsAreCommands(code, m, requests[..n]);
      assert requests[n] in requests;
      TranslatedRun(code, Run(m, AllTranslated(code, requests[..n])), requests[n]);
      RunConcat(m, AllTranslated(code, requests[..n]), Translated(code, requests[n]));
    }
  }

  /** A run of the simulator whose ticks are all coded comes with a run of commands that leads to what the
      simulator's allocator holds. */
  method Simulate<V(!new), T(!new), R>(tick: Contents<V, T> -> Contents<V, T>, init: Contents<V, T>,
                           commands: seq<Replays.Command<Contents<V, T>, R>>, ghost code: Code<V, T>)
    returns (sim: Simulators.Simulator<Contents<V, T>>, ghost run: seq<Command<V, T>>)
    requires Coded(code, tick)
    requires forall c :: c in commands && c.StepWith? ==> Coded(code, Simulators.StateOf(c.customTick))
    ensures sim.Valid() && sim.tick == tick && sim.init == init
    ensures Replays.History(sim.log, sim.head.stateIndex) == Replays.After(tick, init, commands)
    ensures Run(Timeline(init, None, []), run) == sim.alloc
  {
    hide Coded, Simulators.Frozen, Simulators.Fold, Simulators.Customs, Simulators.Ordered, Simulators.IsBase;
    sim := Replays.RunFromStart(tick, init, commands);
    forall r | r in sim.requests && r.Tick? ensures Coded(code, r.run) {
      if r.run != tick {
        var k :| 0 <= k < |commands| && commands[k].StepWith? && r.run == Simulators.StateOf(commands[k].customTick);
        assert commands[k] in commands;
      }
    }
    run := AllTranslated(code, sim.requests);
    RequestsAreCommands(code, Timeline(init, None, []), sim.requests);
  }

  /** A store that carries out this run from the same first contents holds the state that the log says, and
      it does carry it out if it has the room. */
  method Mirror<V, T>(st: SpaceTime<V, T>, run: seq<Command<V, T>>, sim: Simulators.Simulator<Contents<V,
                      T>>) returns (done: nat)
    requires st.Valid() && st.model == Timeline(sim.init, None, [])
    requires sim.Valid() && Run(st.model, run) == sim.alloc
    modifies st, st.storage.tables, st.storage.arrays.dataTable, st.storage.arrays.pageTables
    ensures done <= |run|
    ensures done == |run| ==>
      st.Valid() && st.model.head == Simulators.Fold(sim.tick, sim.init, sim.log[..sim.head.stateIndex])
    ensures old(HasRoom(st.Now(), RunSlots(st.Layers(), st.model, run), RunRefs(st.Layers(), st.model, run))) ==>
      done == |run|
  {
    ghost var states;
    done, states := ExecuteAll(st, run);
    assert run[..|run|] == run;
  }
}
