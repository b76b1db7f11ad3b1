/** Whole runs of the simulator against the simplest account of them: one log and a position in it. */
module Replays {
  import opened Options
  import opened Timelines
  import opened Simulators

  datatype Command<!S, !R> =
    | Step
    | StepWith(customTick: S -> (S, R))
    | Undo
    | Redo
    | GoTo(steps: nat)
    | UndoUntil(pred: S -> Option<R>)

  datatype History<!S> = History(log: seq<Entry<S>>, position: StateIndex)

  /** The last position before `to` that `pred` accepts, or the start. */
  function LastAccepted<S, R>(tick: S -> S, init: S, log: seq<Entry<S>>, pred: S -> Option<R>,
                              to: StateIndex): (at: StateIndex)
    requires to <= |log|
    ensures at <= to
  {
    if to == 0 then 0
    else if pred(Fold(tick, init, log[..to - 1])).Some? then to - 1
    else LastAccepted(tick, init, log, pred, to - 1)
  }

  function Next<S, R>(tick: S -> S, init: S, h: History<S>, command: Command<S, R>): History<S>
    requires h.position <= |h.log|
  {
    match command
    case Step => History(h.log[..h.position] + [Default], h.position + 1)
    case StepWith(f) => History(h.log[..h.position] + [Custom(StateOf(f))], h.position + 1)
    case Undo => History(h.log, if h.position > 0 then h.position - 1 else 0)
    case Redo => History(h.log, if h.position < |h.log| then h.position + 1 else h.position)
    case GoTo(steps) => History(if steps <= |h.log| then h.log else h.log + Defaults(steps - |h.log|), steps)
    case UndoUntil(pred) => History(h.log, LastAccepted(tick, init, h.log, pred, h.position))
  }

  lemma NextInRange<S, R>(tick: S -> S, init: S, h: History<S>, command: Command<S, R>)
    requires h.position <= |h.log|
    ensures Next(tick, init, h, command).position <= |Next(tick, init, h, command).log|
  {
    if command.GoTo? && command.steps > |h.log| {
      DefaultsAre<S>(command.steps - |h.log|);
    }
  }

  function After<S, R>(tick: S -> S, init: S, commands: seq<Command<S, R>>): (h: History<S>)
    ensures h.position <= |h.log|
  {
    if commands == [] then History([], 0)
    else
      var n := |commands| - 1;
      NextInRange(tick, init, After(tick, init, commands[..n]), commands[n]);
      Next(tick, init, After(tick, init, commands[..n]), commands[n])
  }

  lemma {:induction false} LastAcceptedIs<S, R>(tick: S -> S, init: S, log: seq<Entry<S>>, pred: S -> Option<R>,
                                                to: StateIndex, last: Option<(StateIndex, R)>)
    requires to <= |log| && IsLastMatch(tick, init, log, pred, 0, to, last)
    ensures LastAccepted(tick, init, log, pred, to) == if last.Some? then last.value.0 else 0
  {
    if to > 0 && (last.None? || last.value.0 < to - 1) {
      LastAcceptedIs(tick, init, log, pred, to - 1, last);
    }
  }

  method Execute<S, R>(sim: Simulator<S>, command: Command<S, R>)
    requires sim.Valid()
    modifies sim
    ensures sim.Valid()
    ensures History(sim.log, sim.head.stateIndex)
      == Next(sim.tick, sim.init, History(old(sim.log), old(sim.head.stateIndex)), command)
    ensures old(sim.Spaced()) && (command.GoTo? ==> command.steps <= old(|sim.log|)) ==> sim.Spaced()
    ensures sim.given == old(sim.given) + if command.StepWith? then {StateOf(command.customTick)} else {}
  {
    hide Traced, Frozen, Fold, Customs, Ordered, IsBase, SpacedOut;
    match command
    case Step => sim.Step();
    case StepWith(f) => var _ := sim.StepWith(f);
    case Undo => var _ := sim.UndoStep();
    case Redo => var _ := sim.RedoStep();
    case GoTo(steps) => sim.GoTo(steps);
    case UndoUntil(pred) =>
      ghost var log, start := sim.log, sim.head.stateIndex;
      var reason, _, _ := sim.UndoStepsUntil(pred);
      LastAcceptedIs(sim.tick, sim.init, log, pred, start,
                     if reason.Pred? then Some((sim.head.stateIndex, reason.value)) else None);
  }

  /** Every jump goes to a state that exists when it is made. */
  ghost predicate InRange<S, R>(tick: S -> S, init: S, commands: seq<Command<S, R>>) {
    forall k :: 0 <= k < |commands| && commands[k].GoTo? ==> commands[k].steps <= |After(tick, init, commands[..k]).log|
  }

  /** Custom ticks come from the commands. */
  ghost predicate AllGiven<S, R>(commands: seq<Command<S, R>>, given: set<S -> S>) {
    forall g :: g in given ==>
      exists k :: 0 <= k < |commands| && commands[k].StepWith? && g == StateOf(commands[k].customTick)
  }

  lemma NothingGiven<S, R>()
    ensures AllGiven<S, R>([], {})
  {
  }

  lemma GivenMore<S, R>(commands: seq<Command<S, R>>, k: nat, given: set<S -> S>)
    requires k < |commands| && AllGiven(commands[..k], given)
    ensures AllGiven(commands[..k + 1], given + if commands[k].StepWith? then {StateOf(commands[k].customTick)} else {})
  {
    var more := commands[..k + 1];
    forall g | g in given ensures exists j :: 0 <= j < |more| && more[j].StepWith? && g == StateOf(more[j].customTick) {
      var j :| 0 <= j < k && commands[..k][j].StepWith? && g == StateOf(commands[..k][j].customTick);
      assert more[j] == commands[..k][j];
    }
    assert more[k] == commands[k];
  }

  /** Replay is correct: after any run of commands the allocator holds the fold of the log up to the
      current position, which is also what the plain history says. When all jumps were in range, the
      snapshots are regularly spaced, which bounds every later replay by 2048 steps. */
  method RunFromStart<S, R>(tick: S -> S, init: S, commands: seq<Command<S, R>>) returns (sim: Simulator<S>)
    ensures sim.Valid() && sim.tick == tick && sim.init == init
    ensures History(sim.log, sim.head.stateIndex) == After(tick, init, commands)
    ensures sim.alloc.head == Fold(tick, init, After(tick, init, commands).log[..After(tick, init, commands).position])
    ensures InRange(tick, init, commands) ==> sim.Spaced()
    ensures AllGiven(commands, sim.given)
  {
    hide Traced, Frozen, Fold, Customs, Ordered, IsBase, SpacedOut, Next, AllGiven;
    NothingGiven<S, R>();
    sim := new Simulator(tick, init);
    var k := 0;
    while k < |commands|
      invariant 0 <= k <= |commands| && sim.Valid() && sim.tick == tick && sim.init == init && fresh(sim)
      invariant History(sim.log, sim.head.stateIndex) == After(tick, init, commands[..k])
      invariant InRange(tick, init, commands) ==> sim.Spaced()
      invariant AllGiven(commands[..k], sim.given)
    {
      GivenMore(commands, k, sim.given);
      Execute(sim, commands[k]);
      assert commands[..k + 1][..k] == commands[..k];
      k := k + 1;
    }
    assert commands[..k] == commands;
  }

  /** Undoing and redoing in any number never changes what was logged. */
  lemma {:induction false} TravelKeepsLog<S, R>(tick: S -> S, init: S, before: seq<Command<S, R>>,
                                                travel: seq<Command<S, R>>)
    requires forall c :: c in travel ==>
      c.Undo? || c.Redo? || c.UndoUntil? || (c.GoTo? && c.steps <= |After(tick, init, before).log|)
    ensures After(tick, init, before + travel).log == After(tick, init, before).log
  {
    hide LastAccepted, Fold, Defaults;
    if travel == [] {
      assert before + travel == before;
    } else {
      var n := |travel| - 1;
      TravelKeepsLog(tick, init, before, travel[..n]);
      assert (before + travel)[..|before| + n] == before + travel[..n];
      assert travel[n] in travel;
    }
  }

  /** The state at the end of a run of commands, as the log says. */
  function StateAfter<S, R>(tick: S -> S, init: S, commands: seq<Command<S, R>>): S {
    var h := After(tick, init, commands);
    Fold(tick, init, h.log[..h.position])
  }

  /** What the commands are for: a step runs its tick on the current state and on no other, taking it back
      gives the state before it, and repeating it the state after it. */
  lemma StepsAsGiven<S, R>(tick: S -> S, init: S, commands: seq<Command<S, R>>, f: S -> (S, R))
    ensures StateAfter<S, R>(tick, init, []) == init
    ensures var s := StateAfter(tick, init, commands);
      && StateAfter(tick, init, commands + [Step]) == tick(s)
      && StateAfter(tick, init, commands + [Step, Undo]) == s
      && StateAfter(tick, init, commands + [Step, Undo, Redo]) == tick(s)
      && StateAfter(tick, init, commands + [StepWith(f)]) == f(s).0
      && StateAfter(tick, init, commands + [StepWith(f), Undo]) == s
      && StateAfter(tick, init, commands + [StepWith(f), Undo, Redo]) == f(s).0
  {
    StepTakenBack(tick, init, commands, Command<S, R>.Step);
    StepTakenBack(tick, init, commands, StepWith(f));
  }

  lemma StepTakenBack<S, R>(tick: S -> S, init: S, commands: seq<Command<S, R>>, c: Command<S, R>)
    requires c.Step? || c.StepWith?
    ensures var s := StateAfter(tick, init, commands);
      var t := if c.Step? then tick(s) else c.customTick(s).0;
      && StateAfter(tick, init, commands + [c]) == t
      && StateAfter(tick, init, commands + [c, Undo]) == s
      && StateAfter(tick, init, commands + [c, Undo, Redo]) == t
  {
    hide Fold;
    var h := After(tick, init, commands);
    var e := if c.Step? then Default else Custom(StateOf(c.customTick));
    var log := h.log[..h.position] + [e];
    AfterMore(tick, init, commands, c);
    AfterMore(tick, init, commands + [c], Undo);
    AfterMore(tick, init, commands + [c, Undo], Redo);
    assert commands + [c, Undo] == commands + [c] + [Undo];
    assert commands + [c, Undo, Redo] == commands + [c, Undo] + [Redo];
    assert log[..h.position] == h.log[..h.position] && log[..h.position + 1] == log;
    StatesOfLog(tick, init, log, h.position);
  }

  lemma AfterMore<S, R>(tick: S -> S, init: S, commands: seq<Command<S, R>>, c: Command<S, R>)
    ensures After(tick, init, commands + [c]) == Next(tick, init, After(tick, init, commands), c)
  {
    assert (commands + [c])[..|commands|] == commands;
  }

  /** A reverse search ends at the last earlier state that is accepted, or at the start. */
  lemma SearchesBack<S, R>(tick: S -> S, init: S, commands: seq<Command<S, R>>, pred: S -> Option<R>)
    ensures var h, g := After(tick, init, commands), After(tick, init, commands + [UndoUntil(pred)]);
      && g.log == h.log && (if h.position == 0 then g.position == 0 else g.position < h.position)
      && (g.position == 0 || pred(StateAfter(tick, init, commands + [UndoUntil(pred)])).Some?)
      && forall i :: g.position < i < h.position ==> pred(Fold(tick, init, h.log[..i])).None?
  {
    hide Fold;
    var h := After(tick, init, commands);
    AfterMore(tick, init, commands, UndoUntil(pred));
    LastAcceptedBounds(tick, init, h.log, pred, h.position);
  }

  lemma {:induction false} LastAcceptedBounds<S, R>(tick: S -> S, init: S, log: seq<Entry<S>>, pred: S -> Option<R>,
                                                    to: StateIndex)
    requires to <= |log|
    ensures var at := LastAccepted(tick, init, log, pred, to);
      && (to > 0 ==> at < to) && (at == 0 || pred(Fold(tick, init, log[..at])).Some?)
      && forall i :: at < i < to ==> pred(Fold(tick, init, log[..i])).None?
  {
    if to > 0 && pred(Fold(tick, init, log[..to - 1])).None? {
      LastAcceptedBounds(tick, init, log, pred, to - 1);
    }
  }

  /** A jump past the end of the log takes default steps. */
  lemma JumpTakesSteps<S, R>(tick: S -> S, init: S, commands: seq<Command<S, R>>, n: nat)
    requires n >= |After(tick, init, commands).log|
    ensures StateAfter(tick, init, commands + [GoTo(n + 1)]) == tick(StateAfter(tick, init, commands + [GoTo(n)]))
  {
    hide Fold, Defaults, After, Next;
    var h := After(tick, init, commands);
    var log := h.log + Defaults(n - |h.log|);
    AfterJump(tick, init, commands, n);
    AfterJump(tick, init, commands, n + 1);
    MoreDefaults<S>(h.log, n);
    DefaultsAre<S>(n - |h.log|);
    assert (log + [Default])[..n] == log == log[..n] && (log + [Default])[..n + 1] == log + [Default];
    StatesOfLog(tick, init, log + [Default], n);
  }

  lemma AfterJump<S, R>(tick: S -> S, init: S, commands: seq<Command<S, R>>, n: nat)
    requires n >= |After(tick, init, commands).log|
    ensures var h := After(tick, init, commands);
      After(tick, init, commands + [GoTo(n)]) == History(h.log + Defaults(n - |h.log|), n)
  {
    hide Fold;
    AfterMore(tick, init, commands, GoTo(n));
    NoDefaults(After(tick, init, commands).log);
  }

  /** Time travel is lossless: whatever is undone, redone, searched and jumped to within the log, going back
      to the position where that began gives the state that was there. */
  lemma TravelIsLossless<S, R>(tick: S -> S, init: S, before: seq<Command<S, R>>, travel: seq<Command<S, R>>)
    requires forall c :: c in travel ==>
      c.Undo? || c.Redo? || c.UndoUntil? || (c.GoTo? && c.steps <= |After(tick, init, before).log|)
    ensures var back := GoTo(After(tick, init, before).position);
      StateAfter(tick, init, before + travel + [back]) == StateAfter(tick, init, before)
  {
    hide Fold;
    TravelKeepsLog(tick, init, before, travel);
    AfterMore(tick, init, before + travel, GoTo(After(tick, init, before).position));
  }

  /** Takes a custom step, takes it back and repeats it. */
  method StepAndRepeat<S, R>(sim: Simulator<S>, customTick: S -> (S, R)) returns (stepped: S, back: S, again: S)
    requires sim.Valid()
    modifies sim
    ensures sim.Valid() && sim.head.stateIndex == old(sim.head.stateIndex) + 1
    ensures stepped == customTick(old(sim.alloc.head)).0 && back == old(sim.alloc.head) && again == stepped
  {
    hide Traced, Frozen, Fold, Customs, Ordered, IsBase, SpacedOut;
    ghost var i, log := sim.head.stateIndex, sim.log;
    var _ := sim.StepWith(customTick);
    stepped := sim.alloc.head;
    assert sim.log[..i] == log[..i] && sim.log[..i + 1] == sim.log;
    var _ := sim.UndoStep();
    back := sim.alloc.head;
    var _ := sim.RedoStep();
    again := sim.alloc.head;
  }

  /** Where clearing the forward history goes wrong: called on its own right after a custom step, it
      cuts off the tick of that step, which was executed already. */
  method ClearAfterCustomStep<S, R>(sim: Simulator<S>, customTick: S -> (S, R))
    requires sim.Valid()
    modifies sim
    ensures |sim.log| == old(sim.head.stateIndex) + 1 && sim.log[|sim.log| - 1] == Custom(StateOf(customTick))
    ensures sim.customTicks != Customs(sim.log)
  {
    hide Traced, Frozen, Fold, Ordered, SpacedOut;
    var _ := sim.StepWith(customTick);
    sim.ClearForwardHistory();
  }
}
