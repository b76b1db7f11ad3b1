/** The hart together with its interrupt controller and its timer. */
module Machines {
  import opened Integers
  import opened Options
  import opened Words
  import opened InterruptRegisters
  import opened Harts
  import opened HartProperties
  import Clints
  import Plics

  /** Something that happens to the hart, and what was done to the controller and to the timer until it
      was over. */
  datatype Moment = Moment(event: Event, accesses: seq<Plics.Event>, timer: seq<Clints.Event>)

  function HartEvents(run: seq<Moment>): seq<Event> {
    if run == [] then [] else HartEvents(run[..|run| - 1]) + [run[|run| - 1].event]
  }

  predicate AllAccepted(accesses: seq<Plics.Event>) {
    forall e :: e in accesses ==> Plics.Accepted(e)
  }

  function AfterAll(s: Plics.State, accesses: seq<Plics.Event>): (t: Plics.State)
    requires Plics.IsState(s) && AllAccepted(accesses)
    ensures Plics.IsState(t)
  {
    if accesses == [] then s
    else
      assert accesses[|accesses| - 1] in accesses;
      Plics.After(AfterAll(s, accesses[..|accesses| - 1]), accesses[|accesses| - 1])
  }

  /** All that the core is told during some accesses. */
  function EmittedAll(s: Plics.State, accesses: seq<Plics.Event>): seq<LineChange>
    requires Plics.IsState(s) && AllAccepted(accesses)
  {
    if accesses == [] then []
    else
      var before := accesses[..|accesses| - 1];
      EmittedAll(s, before) + Plics.Emitted(AfterAll(s, before), AfterAll(s, accesses))
  }

  function Controller(run: seq<Moment>): (s: Plics.State)
    requires forall m :: m in run ==> AllAccepted(m.accesses)
    ensures Plics.IsState(s)
  {
    if run == [] then Plics.Initial()
    else
      assert run[|run| - 1] in run;
      AfterAll(Controller(run[..|run| - 1]), run[|run| - 1].accesses)
  }

  function OnLine(changes: seq<LineChange>, i: Interrupt): seq<LineChange> {
    if changes == [] then []
    else
      var last := changes[|changes| - 1];
      OnLine(changes[..|changes| - 1], i) + if last.line == i then [last] else []
  }

  /** The external interrupt line of machine mode is driven by the controller, and by nothing else. */
  ghost predicate Connected(v: Vectors, run: seq<Moment>)
    requires Aligned(v.reset) && Aligned(v.nmi)
  {
    run == [] ||
    var before, last := run[..|run| - 1], run[|run| - 1];
    && Connected(v, before) && (forall m :: m in run ==> AllAccepted(m.accesses)) && AllAccepted(last.accesses)
    && OnLine(EventLines(Run(v, HartEvents(before)), last.event), MachineExternal)
      == EmittedAll(Controller(before), last.accesses)
  }

  /** One more moment of a connected run. */
  lemma ConnectedMore(v: Vectors, run: seq<Moment>, m: Moment)
    requires Aligned(v.reset) && Aligned(v.nmi) && Connected(v, run) && AllAccepted(m.accesses)
    requires (forall n :: n in run ==> AllAccepted(n.accesses)) && |Run(v, HartEvents(run)).x| == 32
    requires OnLine(EventLines(Run(v, HartEvents(run)), m.event), MachineExternal)
      == EmittedAll(Controller(run), m.accesses)
    ensures Connected(v, run + [m])
  {
    hide Happen, EventLines, OnLine, EmittedAll;
    assert (run + [m])[..|run|] == run;
  }

  lemma {:induction false} OnlyThatLine(changes: seq<LineChange>, i: Interrupt, before: bool)
    ensures LevelAfter(OnLine(changes, i), i, before) == LevelAfter(changes, i, before)
  {
    if changes != [] {
      var n := |changes| - 1;
      OnlyThatLine(changes[..n], i, before);
      var kept := OnLine(changes[..n], i);
      if changes[n].line == i {
        assert (kept + [changes[n]])[..|kept|] == kept;
      } else {
        assert kept + [] == kept;
      }
    }
  }

  lemma {:induction false} EmittedLevel(s: Plics.State, accesses: seq<Plics.Event>)
    requires Plics.IsState(s) && AllAccepted(accesses)
    ensures LevelAfter(EmittedAll(s, accesses), MachineExternal, Plics.NeedsInterrupt(s))
      == Plics.NeedsInterrupt(AfterAll(s, accesses))
  {
    hide Plics.NeedsInterrupt, Plics.After;
    if accesses != [] {
      var before := accesses[..|accesses| - 1];
      EmittedLevel(s, before);
      LevelAfterMore(EmittedAll(s, before), Plics.Emitted(AfterAll(s, before), AfterAll(s, accesses)), MachineExternal,
                     Plics.NeedsInterrupt(s));
    }
  }

  /** In every reachable state the external interrupt of machine mode is pending exactly when some
      enabled pending source of the controller has a priority above its threshold. */
  lemma ExternalInterruptIsNeed(v: Vectors, run: seq<Moment>)
    requires Aligned(v.reset) && Aligned(v.nmi) && Connected(v, run)
    ensures forall m :: m in run ==> AllAccepted(m.accesses)
    ensures var s := Controller(run);
      Bit(Run(v, HartEvents(run)).interrupts.mip, MachineExternal) <==>
      exists i :: 0 < i < 53 && s.enabled[i] && s.pending[i] && s.priorities[i] > s.threshold
  {
    BitIsNeed(v, run);
    Plics.ClaimIsRight(Controller(run));
  }

  lemma {:induction false} BitIsNeed(v: Vectors, run: seq<Moment>)
    requires Aligned(v.reset) && Aligned(v.nmi) && Connected(v, run)
    ensures forall m :: m in run ==> AllAccepted(m.accesses)
    ensures Bit(Run(v, HartEvents(run)).interrupts.mip, MachineExternal) == Plics.NeedsInterrupt(Controller(run))
  {
    hide GoodHart, Happen, Plics.NeedsInterrupt, LevelAfter, EventLines, AllAccepted, Aligned, EmittedAll, OnLine;
    if run == [] {
      NothingNeeded();
    } else {
      var before, last := run[..|run| - 1], run[|run| - 1];
      BitIsNeed(v, before);
      var h := Run(v, HartEvents(before));
      LengthOfGood(h);
      assert HartEvents(run)[..|HartEvents(before)|] == HartEvents(before);
      EventSetsLevels(h, v, last.event, MachineExternal);
      OnlyThatLine(EventLines(h, last.event), MachineExternal, Bit(h.interrupts.mip, MachineExternal));
      EmittedLevel(Controller(before), last.accesses);
    }
  }

  lemma NothingNeeded()
    ensures !Plics.NeedsInterrupt(Plics.Initial())
  {
  }

  // ---------- The timer ----------

  function TimerEvents(run: seq<Moment>): seq<Clints.Event> {
    if run == [] then [] else TimerEvents(run[..|run| - 1]) + run[|run| - 1].timer
  }

  function Timer(run: seq<Moment>): Clints.State {
    Clints.AfterAll(Clints.INITIAL, TimerEvents(run))
  }

  /** The timer interrupt line of machine mode is driven by the timer, and by nothing else. */
  ghost predicate Timed(v: Vectors, run: seq<Moment>)
    requires Aligned(v.reset) && Aligned(v.nmi)
  {
    run == [] ||
    var before, last := run[..|run| - 1], run[|run| - 1];
    && Timed(v, before)
    && OnLine(EventLines(Run(v, HartEvents(before)), last.event), MachineTimer)
      == Clints.EmittedAll(Timer(before), last.timer)
  }

  lemma {:induction false} EmittedInTurn(s: Clints.State, a: seq<Clints.Event>, b: seq<Clints.Event>)
    ensures Clints.AfterAll(s, a + b) == Clints.AfterAll(Clints.AfterAll(s, a), b)
    ensures Clints.EmittedAll(s, a + b) == Clints.EmittedAll(s, a) + Clints.EmittedAll(Clints.AfterAll(s, a), b)
  {
    hide Clints.After, Clints.Emitted;
    if b == [] {
      assert a + b == a;
    } else {
      var n := |b| - 1;
      EmittedInTurn(s, a, b[..n]);
      assert (a + b)[..|a| + n] == a + b[..n];
    }
  }

  /** In every reachable state the timer interrupt of machine mode is pending exactly when mtime has
      reached mtimecmp and was below it at some time before. */
  lemma TimerInterruptIsNeed(v: Vectors, run: seq<Moment>)
    requires Aligned(v.reset) && Aligned(v.nmi) && Timed(v, run)
    ensures var events := TimerEvents(run);
      Bit(Run(v, HartEvents(run)).interrupts.mip, MachineTimer) <==>
      && Clints.NeedsInterrupt(Clints.AfterAll(Clints.INITIAL, events))
      && exists k :: 0 <= k <= |events| && !Clints.NeedsInterrupt(Clints.AfterAll(Clints.INITIAL, events[..k]))
  {
    TimerBit(v, run);
    Clints.LineAfter(TimerEvents(run));
  }

  lemma {:induction false} TimerBit(v: Vectors, run: seq<Moment>)
    requires Aligned(v.reset) && Aligned(v.nmi) && Timed(v, run)
    ensures Bit(Run(v, HartEvents(run)).interrupts.mip, MachineTimer)
      == LevelAfter(Clints.EmittedAll(Clints.INITIAL, TimerEvents(run)), MachineTimer, false)
  {
    hide GoodHart, Happen, LevelAfter, EventLines, Aligned, OnLine, Clints.EmittedAll, Clints.AfterAll;
    LevelOfNothing();
    if run == [] {
      NothingEmitted();
    } else {
      var before, last := run[..|run| - 1], run[|run| - 1];
      TimerBit(v, before);
      var h := Run(v, HartEvents(before));
      LengthOfGood(h);
      assert HartEvents(run)[..|HartEvents(before)|] == HartEvents(before);
      EventSetsLevels(h, v, last.event, MachineTimer);
      OnlyThatLine(EventLines(h, last.event), MachineTimer, Bit(h.interrupts.mip, MachineTimer));
      EmittedInTurn(Clints.INITIAL, TimerEvents(before), last.timer);
      LevelAfterMore(Clints.EmittedAll(Clints.INITIAL, TimerEvents(before)),
                     Clints.EmittedAll(Timer(before), last.timer), MachineTimer, false);
    }
  }

  /** One more moment of a timed run. */
  lemma OneMore(v: Vectors, run: seq<Moment>, m: Moment)
    requires Aligned(v.reset) && Aligned(v.nmi) && Timed(v, run)
    requires |Run(v, HartEvents(run)).x| == 32
    requires OnLine(EventLines(Run(v, HartEvents(run)), m.event), MachineTimer)
      == Clints.EmittedAll(Timer(run), m.timer)
    ensures Timed(v, run + [m]) && Timer(run + [m]) == Clints.AfterAll(Timer(run), m.timer)
    ensures Run(v, HartEvents(run + [m])) == Happen(Run(v, HartEvents(run)), v, m.event)
  {
    hide Happen, EventLines, OnLine, Clints.AfterAll, Clints.EmittedAll;
    assert (run + [m])[..|run|] == run;
    EmittedInTurn(Clints.INITIAL, TimerEvents(run), m.timer);
    assert (HartEvents(run) + [m.event])[..|HartEvents(run)|] == HartEvents(run);
  }

  lemma NothingEmitted()
    ensures Clints.EmittedAll(Clints.INITIAL, []) == []
  {
  }

  /** What the hart does on its own, with stores of at most a word, never makes it pending. */
  lemma TimerNeverPending(v: Vectors, run: seq<Moment>)
    requires Aligned(v.reset) && Aligned(v.nmi) && Timed(v, run)
    requires forall e :: e in TimerEvents(run) ==> !Clints.Arms(e)
    ensures !Bit(Run(v, HartEvents(run)).interrupts.mip, MachineTimer)
  {
    TimerBit(v, run);
    Clints.NeverMoved(TimerEvents(run));
  }
}
