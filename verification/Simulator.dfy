/** The simulator timeline: undo, redo, jumps and reverse search by sparse snapshots and replay.
    The specification is one log of steps; state `i` is the fold of its first `i` entries. */
module Simulators {
  import opened Options
  import opened Timelines

  /** A step of the log: the default tick, or a custom one. */
  datatype Entry<!S> = Default | Custom(run: S -> S)

  function Effect<S>(tick: S -> S, e: Entry<S>, s: S): S {
    if e.Default? then tick(s) else e.run(s)
  }

  function Fold<S>(tick: S -> S, init: S, log: seq<Entry<S>>): S {
    if log == [] then init else Effect(tick, log[|log| - 1], Fold(tick, init, log[..|log| - 1]))
  }

  /** The states of a log: the first one, and each later one made from the one before by its step. */
  lemma StatesOfLog<S>(tick: S -> S, init: S, log: seq<Entry<S>>, i: StateIndex)
    requires i < |log|
    ensures Fold(tick, init, log[..0]) == init
    ensures var s := Fold(tick, init, log[..i]);
      Fold(tick, init, log[..i + 1]) == if log[i].Custom? then log[i].run(s) else tick(s)
  {
    assert log[..i + 1][..i] == log[..i];
  }

  // ---------- State and step indices ----------

  type StateIndex = nat

  type StepIndex = nat

  /** States and steps alternate: state 0, step 0, state 1, step 1, and so on. */
  predicate StepBeforeState(step: StepIndex, state: StateIndex) {
    2 * step + 1 < 2 * state
  }

  // ---------- The side list of custom ticks ----------

  type CustomTick<!S> = (StepIndex, S -> S)

  function Customs<S>(log: seq<Entry<S>>): seq<CustomTick<S>> {
    if log == [] then []
    else
      var n := |log| - 1;
      Customs(log[..n]) + if log[n].Custom? then [(n, log[n].run)] else []
  }

  /** The custom ticks of the first `i` steps. */
  function CustomsBefore<S>(log: seq<Entry<S>>, i: StateIndex): nat
    requires i <= |log|
  {
    |Customs(log[..i])|
  }

  lemma {:induction false} CustomsSplit<S>(log: seq<Entry<S>>, i: StateIndex)
    requires i <= |log|
    ensures var c := CustomsBefore(log, i);
      && c <= |Customs(log)| && Customs(log)[..c] == Customs(log[..i])
      && (forall j :: 0 <= j < c ==> Customs(log)[j].0 < i)
      && (forall j :: c <= j < |Customs(log)| ==> i <= Customs(log)[j].0 < |log|)
    decreases log
  {
    if i == |log| {
      assert log[..i] == log;
      if log != [] {
        CustomsSplit(log[..i - 1], i - 1);
        assert log[..i - 1][..i - 1] == log[..i - 1];
      }
    } else {
      var n := |log| - 1;
      CustomsSplit(log[..n], i);
      assert log[..n][..i] == log[..i];
    }
  }

  /** Cutting the log cuts the list of its custom ticks, and cutting that list shorter is noticed. */
  lemma CustomsOfPrefix<S>(log: seq<Entry<S>>, i: StateIndex)
    requires i <= |log|
    ensures CustomsBefore(log, i) <= |Customs(log)| && |Customs(log[..i])| == CustomsBefore(log, i)
    ensures forall n :: 0 <= n <= |Customs(log)| ==>
      (Customs(log)[..n] == Customs(log[..i]) <==> n == CustomsBefore(log, i))
    ensures i == |log| ==> log[..i] == log
  {
    CustomsSplit(log, i);
    if i == |log| {
      assert log[..i] == log;
    }
  }

  lemma CustomAt<S>(log: seq<Entry<S>>, i: StateIndex)
    requires i < |log|
    ensures var c := CustomsBefore(log, i);
      && CustomsBefore(log, i + 1) == (if log[i].Custom? then c + 1 else c)
      && if log[i].Custom? then c < |Customs(log)| && Customs(log)[c] == (i, log[i].run)
         else c < |Customs(log)| ==> Customs(log)[c].0 != i
  {
    CustomsSplit(log, i);
    CustomsSplit(log, i + 1);
    assert log[..i + 1][..i] == log[..i];
    if log[i].Custom? {
      assert Customs(log[..i + 1])[CustomsBefore(log, i)] == (i, log[i].run);
    }
  }

  /** The first index at which `p` fails. */
  function PartitionPoint<X>(xs: seq<X>, p: X -> bool): nat {
    if xs == [] || !p(xs[0]) then 0 else 1 + PartitionPoint(xs[1..], p)
  }

  lemma {:induction false} PartitionPointIs<X>(xs: seq<X>, p: X -> bool, c: nat)
    requires c <= |xs| && (forall j :: 0 <= j < c ==> p(xs[j])) && (c < |xs| ==> !p(xs[c]))
    ensures PartitionPoint(xs, p) == c
  {
    if c > 0 {
      PartitionPointIs(xs[1..], p, c - 1);
    }
  }

  // ---------- The simulator ----------

  datatype Head = Head(stateIndex: StateIndex, baseSnapshotIndex: nat, nextCustomTickIndex: nat)

  type SnapshotEntry = (Head, SnapshotId)

  /** Snapshots are of strictly increasing states, starting with state 0. */
  ghost predicate Ordered(snapshots: seq<SnapshotEntry>) {
    && snapshots != [] && snapshots[0].0.stateIndex == 0
    && (forall j, k :: 0 <= j < k < |snapshots| ==> snapshots[j].0.stateIndex < snapshots[k].0.stateIndex)
    && (forall j, k :: 0 <= j < k < |snapshots| ==> snapshots[j].1 < snapshots[k].1)
    && forall k :: 0 <= k < |snapshots| ==> snapshots[k].0.baseSnapshotIndex == k
  }

  /** Every snapshot holds the state of the log that it was taken at. */
  ghost predicate Frozen<S>(alloc: Timeline<S>, snapshots: seq<SnapshotEntry>, tick: S -> S, init: S,
                            log: seq<Entry<S>>) {
    forall k :: 0 <= k < |snapshots| ==>
      && snapshots[k].0.stateIndex <= |log| && alloc.Has(snapshots[k].1)
      && alloc.snapshots[snapshots[k].1] == Some(Fold(tick, init, log[..snapshots[k].0.stateIndex]))
  }

  /** The base of a state is the last snapshot at or before it. */
  ghost predicate IsBase(snapshots: seq<SnapshotEntry>, base: nat, state: StateIndex) {
    && base < |snapshots| && snapshots[base].0.stateIndex <= state
    && (base + 1 < |snapshots| ==> state < snapshots[base + 1].0.stateIndex)
  }

  ghost predicate SpacedOut(snapshots: seq<SnapshotEntry>) {
    forall k :: 0 < k < |snapshots| ==>
      snapshots[k].0.stateIndex <= snapshots[k - 1].0.stateIndex + MAX_STEPS_SINCE_SNAPSHOT + 1
  }

  lemma SnapshotAdded<S>(alloc: Timeline<S>, snapshots: seq<SnapshotEntry>, base: nat, head: Head, tick: S -> S,
                         init: S, log: seq<Entry<S>>)
    requires Ordered(snapshots) && Frozen(alloc, snapshots, tick, init, log) && base == |snapshots| - 1
    requires snapshots[base].0.stateIndex < head.stateIndex == |log| && head.baseSnapshotIndex == |snapshots|
    requires alloc.head == Fold(tick, init, log[..|log|])
    ensures var snapshots' := snapshots + [(head, |alloc.snapshots|)];
      && Ordered(snapshots') && Frozen(alloc.MakeSnapshot(), snapshots', tick, init, log)
      && IsBase(snapshots', |snapshots|, head.stateIndex)
  {
    hide Fold;
    var id := |alloc.snapshots|;
    var snapshots' := snapshots + [(head, id)];
    forall j, k | 0 <= j < k < |snapshots'| ensures snapshots'[j].0.stateIndex < snapshots'[k].0.stateIndex
      && snapshots'[j].1 < snapshots'[k].1 {
      assert snapshots'[j] == snapshots[j] && alloc.Has(snapshots[j].1);
      if k < |snapshots| {
        assert snapshots'[k] == snapshots[k];
      } else if j < base {
        assert snapshots[j].0.stateIndex < snapshots[base].0.stateIndex;
      }
    }
    forall k | 0 <= k < |snapshots'|
      ensures snapshots'[k].0.baseSnapshotIndex == k
      ensures snapshots'[k].0.stateIndex <= |log| && alloc.MakeSnapshot().Has(snapshots'[k].1)
      ensures alloc.MakeSnapshot().snapshots[snapshots'[k].1]
        == Some(Fold(tick, init, log[..snapshots'[k].0.stateIndex]))
    {
      if k < |snapshots| {
        assert snapshots'[k] == snapshots[k] && alloc.Has(snapshots[k].1);
      }
    }
  }

  lemma SpacedAdded(snapshots: seq<SnapshotEntry>, head: Head, id: SnapshotId)
    requires snapshots != []
    ensures SpacedOut(snapshots) ==>
      head.stateIndex <= snapshots[|snapshots| - 1].0.stateIndex + MAX_STEPS_SINCE_SNAPSHOT + 1 ==>
      SpacedOut(snapshots + [(head, id)])
  {
  }

  /** While HEAD is detached, its state comes before the newest snapshot. */
  lemma InHistory(snapshots: seq<SnapshotEntry>, base: nat, state: StateIndex)
    requires Ordered(snapshots) && IsBase(snapshots, base, state) && base != |snapshots| - 1
    ensures state < snapshots[base + 1].0.stateIndex <= snapshots[|snapshots| - 1].0.stateIndex
  {
  }

  lemma BelowNext(snapshots: seq<SnapshotEntry>, base: nat, state: StateIndex)
    requires IsBase(snapshots, base, state)
    ensures base < |snapshots| && (base + 1 < |snapshots| ==> state < snapshots[base + 1].0.stateIndex)
  {
  }

  lemma BaseIsUnique(snapshots: seq<SnapshotEntry>, base: nat, k: nat, state: StateIndex)
    requires Ordered(snapshots) && IsBase(snapshots, base, state) && k < |snapshots|
    ensures snapshots[k].0.stateIndex == state ==> k == base
    ensures k < base ==> snapshots[k].0.stateIndex < state
    ensures k > base ==> snapshots[k].0.stateIndex > state
  {
  }

  lemma FoldStep<S>(tick: S -> S, init: S, log: seq<Entry<S>>, i: StateIndex)
    requires i < |log|
    ensures Fold(tick, init, log[..i + 1]) == Effect(tick, log[i], Fold(tick, init, log[..i]))
  {
    assert log[..i + 1][..i] == log[..i];
  }

  /** A new step at the end of the log leaves all older states as they were. */
  lemma LogGrows<S>(alloc: Timeline<S>, alloc': Timeline<S>, snapshots: seq<SnapshotEntry>, tick: S -> S, init: S,
                    log: seq<Entry<S>>, e: Entry<S>)
    requires Frozen(alloc, snapshots, tick, init, log) && alloc'.snapshots == alloc.snapshots
    ensures Frozen(alloc', snapshots, tick, init, log + [e])
    ensures var log' := log + [e];
      && Fold(tick, init, log'[..|log'|]) == Effect(tick, e, Fold(tick, init, log[..|log|]))
      && Customs(log') == Customs(log) + if e.Custom? then [(|log|, e.run)] else []
  {
    hide Fold;
    var log' := log + [e];
    assert log'[..|log|] == log == log[..|log|] && log'[..|log'|] == log';
    FoldStep(tick, init, log', |log|);
    forall k | 0 <= k < |snapshots|
      ensures snapshots[k].0.stateIndex <= |log| && alloc'.Has(snapshots[k].1)
      ensures alloc'.snapshots[snapshots[k].1] == Some(Fold(tick, init, log'[..snapshots[k].0.stateIndex]))
    {
      assert alloc.Has(snapshots[k].1);
      assert log'[..snapshots[k].0.stateIndex] == log[..snapshots[k].0.stateIndex];
    }
  }

  lemma ChangeKeepsFrozen<S>(alloc: Timeline<S>, state: S, snapshots: seq<SnapshotEntry>, tick: S -> S, init: S,
                             log: seq<Entry<S>>)
    requires Frozen(alloc, snapshots, tick, init, log)
    ensures Frozen(alloc.Change(state), snapshots, tick, init, log)
  {
  }

  lemma HistoryIsSpaced(snapshots: seq<SnapshotEntry>, base: nat, state: StateIndex)
    requires Ordered(snapshots) && IsBase(snapshots, base, state)
    ensures SpacedOut(snapshots) ==> SpacedOut(snapshots[..base + 1])
    ensures SpacedOut(snapshots) && base + 1 < |snapshots| ==>
      state <= snapshots[base].0.stateIndex + MAX_STEPS_SINCE_SNAPSHOT
  {
  }

  lemma PrefixFrozen<S>(alloc: Timeline<S>, snapshots: seq<SnapshotEntry>, base: nat, tick: S -> S, init: S,
                        log: seq<Entry<S>>, i: StateIndex)
    requires Ordered(snapshots) && IsBase(snapshots, base, i) && i <= |log|
    requires Frozen(alloc, snapshots[..base + 1], tick, init, log)
    ensures Ordered(snapshots[..base + 1]) && Frozen(alloc, snapshots[..base + 1], tick, init, log[..i])
    ensures log[..i][..i] == log[..i]
  {
    hide Fold;
    var kept := snapshots[..base + 1];
    forall j | 0 <= j <= base
      ensures kept[j].0.stateIndex <= i && log[..i][..kept[j].0.stateIndex] == log[..kept[j].0.stateIndex]
    {
      assert kept[j] == snapshots[j];
    }
  }

  /** `last` is the last of the states in a range that `pred` accepts, with its answer, or None if there is none. */
  ghost predicate IsLastMatch<S, R>(tick: S -> S, init: S, log: seq<Entry<S>>, pred: S -> Option<R>, from: StateIndex,
                                    to: StateIndex,
                                    last: Option<(StateIndex, R)>)
    requires to <= |log|
  {
    match last
    case None => forall i: StateIndex :: from <= i < to ==> pred(Fold(tick, init, log[..i])).None?
    case Some((at, r)) =>
      && from <= at < to && pred(Fold(tick, init, log[..at])) == Some(r)
      && forall i: StateIndex :: at < i < to ==> pred(Fold(tick, init, log[..i])).None?
  }

  ghost predicate OnceEach(evaluated: multiset<StateIndex>, from: StateIndex, to: StateIndex) {
    forall i: StateIndex :: evaluated[i] == if from <= i < to then 1 else 0
  }

  lemma NothingSearched<S, R>(tick: S -> S, init: S, log: seq<Entry<S>>, pred: S -> Option<R>, to: StateIndex)
    requires to <= |log|
    ensures IsLastMatch<S, R>(tick, init, log, pred, to, to, None) && OnceEach(multiset{}, to, to)
  {
  }

  /** One more state is evaluated. */
  lemma OneMore<S, R>(tick: S -> S, init: S, log: seq<Entry<S>>, pred: S -> Option<R>, from: StateIndex, at: StateIndex,
                      before: Option<(StateIndex, R)>, last: Option<(StateIndex, R)>, evaluated: multiset<StateIndex>)
    requires from <= at < |log| && IsLastMatch(tick, init, log, pred, from, at, before) && OnceEach(evaluated, from, at)
    requires var r := pred(Fold(tick, init, log[..at])); last == if r.Some? then Some((at, r.value)) else before
    ensures IsLastMatch(tick, init, log, pred, from, at + 1, last) && OnceEach(evaluated + multiset{at}, from, at + 1)
  {
  }

  /** Nothing was found from `mid` on, and `last` is the last match before. */
  lemma MatchesJoin<S, R>(tick: S -> S, init: S, log: seq<Entry<S>>, pred: S -> Option<R>, from: StateIndex,
                          mid: StateIndex, to: StateIndex,
                          last: Option<(StateIndex, R)>)
    requires from <= mid <= to <= |log|
    requires
      && IsLastMatch(tick, init, log, pred, from, mid, last) && IsLastMatch<S, R>(tick, init, log, pred, mid, to, None)
    ensures IsLastMatch(tick, init, log, pred, from, to, last)
    ensures last.Some? ==> from <= last.value.0 < mid
  {
  }

  lemma SearchedOnce(evaluated: multiset<StateIndex>, seen: multiset<StateIndex>, from: StateIndex, mid: StateIndex,
                     to: StateIndex)
    requires from <= mid <= to && OnceEach(evaluated, mid, to) && OnceEach(seen, from, mid)
    ensures OnceEach(evaluated + seen, from, to)
  {
  }

  /** A match stays the last one when the whole past is considered. */
  lemma SearchEnds<S, R>(tick: S -> S, init: S, log: seq<Entry<S>>, pred: S -> Option<R>, from: StateIndex,
                         to: StateIndex,
                         last: Option<(StateIndex, R)>, evaluated: multiset<StateIndex>)
    requires from <= to <= |log| && IsLastMatch(tick, init, log, pred, from, to, last) && OnceEach(evaluated, from, to)
    requires last.None? ==> from == 0
    ensures IsLastMatch(tick, init, log, pred, 0, to, last)
    ensures forall i: StateIndex :: evaluated[i] <= 1
    ensures forall i: StateIndex :: from <= i < to ==> evaluated[i] == 1
    ensures last.Some? ==>
      from <= last.value.0 < to && pred(Fold(tick, init, log[..last.value.0])) == Some(last.value.1)
    ensures forall i: StateIndex :: (last.Some? ==> last.value.0 < i) && i < to ==>
      pred(Fold(tick, init, log[..i])).None?
  {
  }

  lemma PreviousBase(snapshots: seq<SnapshotEntry>, n: nat)
    requires Ordered(snapshots) && n < |snapshots|
    ensures n == 0 ==> snapshots[n].0.stateIndex == 0
    ensures n > 0 ==> snapshots[n - 1].0.stateIndex < snapshots[n].0.stateIndex
    ensures n > 0 ==> IsBase(snapshots, n - 1, snapshots[n].0.stateIndex - 1)
  {
  }

  lemma FirstIsStart(snapshots: seq<SnapshotEntry>)
    requires Ordered(snapshots)
    ensures snapshots != [] && snapshots[0].0.stateIndex == 0
  {
  }

  function StateOf<S, R>(f: S -> (S, R)): S -> S {
    s => f(s).0
  }

  /** A snapshot is its own base, and checking it out restores its state of the log. */
  lemma SnapshotFacts<S>(alloc: Timeline<S>, snapshots: seq<SnapshotEntry>, k: nat, tick: S -> S, init: S,
                         log: seq<Entry<S>>)
    requires Ordered(snapshots) && Frozen(alloc, snapshots, tick, init, log) && k < |snapshots| && alloc.Valid()
    ensures alloc.Has(snapshots[k].1) && snapshots[k].0.stateIndex <= |log|
    ensures IsBase(snapshots, k, snapshots[k].0.stateIndex)
    ensures var after := alloc.Checkout(snapshots[k].1);
      after.Valid() && Frozen(after, snapshots, tick, init, log)
        && after.head == Fold(tick, init, log[..snapshots[k].0.stateIndex])
  {
  }

  /** The snapshots from number `k` on exist. */
  ghost predicate Live<S>(alloc: Timeline<S>, snapshots: seq<SnapshotEntry>, k: nat) {
    forall j :: k <= j < |snapshots| ==> alloc.Has(snapshots[j].1)
  }

  lemma FrozenParts<S>(alloc: Timeline<S>, snapshots: seq<SnapshotEntry>, k: nat, tick: S -> S, init: S,
                       log: seq<Entry<S>>)
    requires Frozen(alloc, snapshots, tick, init, log) && k <= |snapshots|
    ensures Frozen(alloc, snapshots[..k], tick, init, log) && Live(alloc, snapshots, k)
  {
  }

  lemma DropKeepsOthers<S>(alloc: Timeline<S>, snapshots: seq<SnapshotEntry>, n: nat, k: nat, tick: S -> S, init: S,
                           log: seq<Entry<S>>)
    requires Ordered(snapshots) && n <= k < |snapshots| && alloc.Valid()
    requires Frozen(alloc, snapshots[..n], tick, init, log) && Live(alloc, snapshots, k)
    ensures alloc.Has(snapshots[k].1)
    ensures var after := alloc.DropSnapshot(snapshots[k].1);
      after.Valid() && after.head == alloc.head && Frozen(after, snapshots[..n], tick, init, log)
        && Live(after, snapshots, k + 1)
  {
  }

  /** `n` default steps. */
  function Defaults<S>(n: nat): seq<Entry<S>> {
    if n == 0 then [] else Defaults(n - 1) + [Default]
  }

  lemma {:induction false} DefaultsAre<S>(n: nat)
    ensures |Defaults<S>(n)| == n && forall k :: 0 <= k < n ==> Defaults<S>(n)[k].Default?
  {
    if n > 0 {
      DefaultsAre<S>(n - 1);
    }
  }

  lemma NoDefaults<S>(log: seq<Entry<S>>)
    ensures log + Defaults(0) == log
  {
  }

  lemma MoreDefaults<S>(log: seq<Entry<S>>, i: nat)
    requires i >= |log|
    ensures log + Defaults<S>(i + 1 - |log|) == log + Defaults<S>(i - |log|) + [Default]
  {
  }

  lemma {:induction false} PartitionPointBounds<X>(xs: seq<X>, p: X -> bool)
    ensures var n := PartitionPoint(xs, p);
      n <= |xs| && (forall j :: 0 <= j < n ==> p(xs[j])) && (n < |xs| ==> !p(xs[n]))
  {
    if xs != [] && p(xs[0]) {
      PartitionPointBounds(xs[1..], p);
    }
  }

  // ---------- What is asked of the allocator ----------

  datatype Request<!S> = Tick(run: S -> S) | Save | Forget(id: SnapshotId) | Restore(id: SnapshotId)

  function Requested<S>(m: Timeline<S>, r: Request<S>): Timeline<S> {
    match r
    case Tick(run) => m.Change(run(m.head))
    case Save => m.MakeSnapshot()
    case Forget(id) => if m.Has(id) then m.DropSnapshot(id) else m
    case Restore(id) => if m.Has(id) then m.Checkout(id) else m
  }

  function AllRequested<S>(m: Timeline<S>, requests: seq<Request<S>>): Timeline<S> {
    if requests == [] then m else Requested(AllRequested(m, requests[..|requests| - 1]), requests[|requests| - 1])
  }

  /** The allocator is what the requests made of one that holds the first state; they and the log have no
      ticks but the default one and the given ones. */
  ghost predicate Traced<S>(alloc: Timeline<S>, init: S, requests: seq<Request<S>>, tick: S -> S, given: set<S -> S>,
                            log: seq<Entry<S>>) {
    && alloc == AllRequested(Timeline(init, None, []), requests)
    && (forall r :: r in requests && r.Tick? ==> r.run == tick || r.run in given)
    && (forall e :: e in log && e.Custom? ==> e.run in given)
  }

  lemma TracedMore<S>(alloc: Timeline<S>, init: S, requests: seq<Request<S>>, tick: S -> S, given: set<S -> S>,
                      log: seq<Entry<S>>,
                      r: Request<S>)
    requires Traced(alloc, init, requests, tick, given, log)
    requires r.Tick? ==> r.run == tick || r.run in given
    ensures Traced(Requested(alloc, r), init, requests + [r], tick, given, log)
    ensures Traced(Requested(alloc, r), init, requests + [r], tick, given, log + [Default])
  {
    assert (requests + [r])[..|requests|] == requests;
  }

  lemma TracedCustom<S>(alloc: Timeline<S>, init: S, requests: seq<Request<S>>, tick: S -> S, given: set<S -> S>,
                        log: seq<Entry<S>>,
                        run: S -> S)
    requires Traced(alloc, init, requests, tick, given, log)
    ensures Traced(alloc.Change(run(alloc.head)), init, requests + [Tick(run)], tick, given + {run},
      log + [Custom(run)])
  {
    var r := Tick(run);
    assert (requests + [r])[..|requests|] == requests;
  }

  lemma TracedPrefix<S>(alloc: Timeline<S>, init: S, requests: seq<Request<S>>, tick: S -> S, given: set<S -> S>,
                        log: seq<Entry<S>>,
                        i: StateIndex)
    requires Traced(alloc, init, requests, tick, given, log) && i <= |log|
    ensures Traced(alloc, init, requests, tick, given, log[..i])
  {
  }

  lemma TracedDefault<S>(alloc: Timeline<S>, init: S, requests: seq<Request<S>>, tick: S -> S, given: set<S -> S>,
                         log: seq<Entry<S>>)
    requires Traced(alloc, init, requests, tick, given, log)
    ensures Traced(alloc, init, requests, tick, given, log + [Default])
    ensures forall j :: 0 <= j < |Customs(log)| ==> Customs(log)[j].1 in given
  {
    CustomsGiven(log, given);
  }

  lemma {:induction false} CustomsGiven<S>(log: seq<Entry<S>>, given: set<S -> S>)
    requires forall e :: e in log && e.Custom? ==> e.run in given
    ensures forall c :: c in Customs(log) ==> c.1 in given
  {
    if log != [] {
      CustomsGiven(log[..|log| - 1], given);
    }
  }

  const MAX_STEPS_SINCE_SNAPSHOT: nat := 2048

  datatype StopReason<R> = ReachedStart | Pred(value: R)

  class Simulator<S> {
    const tick: S -> S
    var alloc: Timeline<S>
    var snapshots: seq<SnapshotEntry>
    var customTicks: seq<CustomTick<S>>
    var head: Head
    ghost const init: S
    ghost var log: seq<Entry<S>>
    /** What was asked of the allocator so far, and the custom ticks that were given. */
    ghost var requests: seq<Request<S>>
    ghost var given: set<S -> S>

    ghost function StateAt(i: StateIndex): S
      reads this
      requires i <= |log|
    {
      Fold(tick, init, log[..i])
    }

    predicate Detached()
      reads this
      requires snapshots != []
    {
      head.baseSnapshotIndex != |snapshots| - 1
    }

    ghost predicate Valid()
      reads this
    {
      && Ordered(snapshots) && head.baseSnapshotIndex < |snapshots|
      && IsBase(snapshots, head.baseSnapshotIndex, head.stateIndex)
      && Traced(alloc, init, requests, tick, given, log)
      && alloc.Valid() && Frozen(alloc, snapshots, tick, init, log)
      && head.stateIndex <= |log| && alloc.head == StateAt(head.stateIndex)
      && customTicks == Customs(log) && head.nextCustomTickIndex <= |customTicks|
      && if Detached() then
           && |log| == snapshots[|snapshots| - 1].0.stateIndex
           && head.nextCustomTickIndex == CustomsBefore(log, head.stateIndex)
         else
           && |log| == head.stateIndex
           && head.nextCustomTickIndex >= |customTicks| - 1
    }

    /** Snapshots are at most 2049 steps apart, and the unsaved end of history is shorter. */
    ghost predicate Spaced()
      reads this
    {
      && SpacedOut(snapshots)
      && (snapshots != [] && !Detached() ==>
        head.stateIndex <= snapshots[|snapshots| - 1].0.stateIndex + MAX_STEPS_SINCE_SNAPSHOT)
    }

    constructor (tick: S -> S, state: S)
      ensures
        && Valid() && Spaced() && log == [] && given == {} && init == state && this.tick == tick && head.stateIndex == 0
    {
      this.tick, init, log := tick, state, [];
      var made := Timeline(state, None, []).MakeSnapshot();
      alloc := made;
      head := Head(0, 0, 0);
      snapshots := [(Head(0, 0, 0), 0)];
      customTicks := [];
      requests, given := [Save], {};
      new;
      assert requests[..0] == [];
    }

    method AvailableSteps() returns (steps: nat)
      requires Valid()
      ensures steps == |log|
    {
      steps := if Detached() then snapshots[|snapshots| - 1].0.stateIndex else head.stateIndex;
    }

    predicate AtSnapshot()
      reads this
      requires head.baseSnapshotIndex < |snapshots|
    {
      snapshots[head.baseSnapshotIndex].0.stateIndex == head.stateIndex
    }

    predicate IsDirty()
      reads this
      requires head.baseSnapshotIndex < |snapshots|
    {
      !Detached() && !AtSnapshot()
    }

    /** Saves the newest state, so that it can be restored later. */
    method MakeSnapshot()
      requires Valid() && IsDirty()
      modifies this
      ensures Valid() && log == old(log) && head.stateIndex == old(head.stateIndex)
      ensures customTicks == old(customTicks) && head.nextCustomTickIndex == old(head.nextCustomTickIndex)
      ensures AtSnapshot() && !Detached() && snapshots[..|snapshots| - 1] == old(snapshots)
      ensures old(SpacedOut(snapshots)) ==>
        old(head.stateIndex) <= old(snapshots[|snapshots| - 1].0.stateIndex) + MAX_STEPS_SINCE_SNAPSHOT + 1 ==> Spaced()
      ensures given == old(given)
    {
      hide Traced, Frozen, Fold, Customs, SpacedOut;
      SnapshotAdded(alloc, snapshots, head.baseSnapshotIndex, head.(baseSnapshotIndex := |snapshots|), tick, init, log);
      SpacedAdded(snapshots, head.(baseSnapshotIndex := |snapshots|), |alloc.snapshots|);
      var id := |alloc.snapshots|;
      TracedMore(alloc, init, requests, tick, given, log, Save);
      alloc := alloc.MakeSnapshot();
      requests := requests + [Save];
      head := head.(baseSnapshotIndex := |snapshots|);
      snapshots := snapshots + [(head, id)];
    }

    /** Repeats one step of the log, or adds a default step at the end of it. */
    method ReplayStep()
      requires Valid() && head.baseSnapshotIndex < |snapshots|
      requires head.baseSnapshotIndex + 1 < |snapshots| ==>
        head.stateIndex + 1 < snapshots[head.baseSnapshotIndex + 1].0.stateIndex
      modifies this
      ensures Valid() && snapshots == old(snapshots)
      ensures head.stateIndex == old(head.stateIndex) + 1 && head.baseSnapshotIndex == old(head.baseSnapshotIndex)
      ensures log == if old(head.stateIndex) < old(|log|) then old(log) else old(log) + [Default]
      ensures alloc.head == if log[old(head.stateIndex)].Custom?
        then log[old(head.stateIndex)].run(old(alloc.head)) else tick(old(alloc.head))
      ensures given == old(given)
    {
      hide Traced, Frozen, Fold, Customs, SpacedOut, Ordered;
      TracedDefault(alloc, init, requests, tick, given, log);
      var stepIndex := head.stateIndex;
      if Detached() {
        InHistory(snapshots, head.baseSnapshotIndex, head.stateIndex);
        CustomAt(log, stepIndex);
        FoldStep(tick, init, log, stepIndex);
        ChangeKeepsFrozen(alloc, Effect(tick, log[stepIndex], alloc.head), snapshots, tick, init, log);
      } else {
        CustomsSplit(log, stepIndex);
        assert log[..stepIndex] == log;
        LogGrows(alloc, alloc.Change(tick(alloc.head)), snapshots, tick, init, log, Default);
        log := log + [Default];
      }
      var next := head.nextCustomTickIndex;
      var run := tick;
      if next < |customTicks| && customTicks[next].0 == stepIndex {
        run := customTicks[next].1;
        head := head.(nextCustomTickIndex := next + 1);
      }
      TracedMore(alloc, init, requests, tick, given, log, Tick(run));
      alloc := alloc.Change(run(alloc.head));
      requests := requests + [Tick(run)];
      head := head.(stateIndex := head.stateIndex + 1);
    }

    /** Discards the current state, which must be saved, and goes to a snapshot. */
    method GoToSnapshot(snapshotIndex: nat)
      requires Valid() && snapshotIndex < |snapshots| && !IsDirty()
      modifies this
      ensures Valid() && snapshots == old(snapshots) && log == old(log)
      ensures head.baseSnapshotIndex == snapshotIndex && head.stateIndex == snapshots[snapshotIndex].0.stateIndex
      ensures given == old(given)
    {
      hide Traced, Fold, Customs, SpacedOut, Frozen, Ordered, IsBase;
      var state, id := snapshots[snapshotIndex].0.stateIndex, snapshots[snapshotIndex].1;
      BaseIsUnique(snapshots, head.baseSnapshotIndex, snapshotIndex, head.stateIndex);
      SnapshotFacts(alloc, snapshots, snapshotIndex, tick, init, log);
      if head.stateIndex == state {
        return;
      }
      var next := PartitionPoint(customTicks, (c: CustomTick<S>) => StepBeforeState(c.0, state));
      CustomsSplit(log, state);
      PartitionPointIs(customTicks, (c: CustomTick<S>) => StepBeforeState(c.0, state), CustomsBefore(log, state));
      TracedMore(alloc, init, requests, tick, given, log, Restore(id));
      alloc := alloc.Checkout(id);
      requests := requests + [Restore(id)];
      head := Head(state, snapshotIndex, next);
    }

    method FindBaseSnapshot(state: StateIndex) returns (base: nat)
      requires Valid()
      ensures IsBase(snapshots, base, state)
    {
      var n := PartitionPoint(snapshots, (e: SnapshotEntry) => e.0.stateIndex <= state);
      PartitionPointBounds(snapshots, (e: SnapshotEntry) => e.0.stateIndex <= state);
      base := n - 1;
    }

    /** Goes to any state, from the last snapshot before it; past the end of history default steps are added. */
    method GoToState(target: StateIndex) returns (replayed: nat)
      requires Valid() && !IsDirty()
      modifies this
      ensures Valid() && snapshots == old(snapshots) && head.stateIndex == target
      ensures log == if target <= old(|log|) then old(log) else old(log) + Defaults(target - old(|log|))
      ensures old(Spaced()) && target <= old(|log|) ==> Spaced() && replayed <= MAX_STEPS_SINCE_SNAPSHOT
      ensures given == old(given)
    {
      hide Traced, Frozen, Fold, Customs, Ordered, Defaults;
      replayed := 0;
      NoDefaults(log);
      if head.stateIndex == target {
        return;
      }
      var base := FindBaseSnapshot(target);
      BaseIsUnique(snapshots, head.baseSnapshotIndex, base, head.stateIndex);
      if base != head.baseSnapshotIndex || target < head.stateIndex {
        GoToSnapshot(base);
      }
      replayed := ReplayTo(target);
    }

    method ReplayTo(target: StateIndex) returns (replayed: nat)
      requires Valid() && IsBase(snapshots, head.baseSnapshotIndex, target) && head.stateIndex <= target
      modifies this
      ensures Valid() && snapshots == old(snapshots) && head.baseSnapshotIndex == old(head.baseSnapshotIndex)
      ensures head.stateIndex == target && replayed == target - old(head.stateIndex)
      ensures log == if target <= old(|log|) then old(log) else old(log) + Defaults(target - old(|log|))
      ensures given == old(given)
    {
      hide Traced, Frozen, Fold, Customs, Ordered, IsBase, Defaults, SpacedOut;
      ghost var start, log0, base := head.stateIndex, log, head.baseSnapshotIndex;
      NoDefaults(log);
      BelowNext(snapshots, base, target);
      replayed := 0;
      while head.stateIndex != target
        invariant Valid() && snapshots == old(snapshots) && head.baseSnapshotIndex == base
        invariant given == old(given)
        invariant start <= head.stateIndex <= target && replayed == head.stateIndex - start
        invariant log == if head.stateIndex <= |log0| then log0 else log0 + Defaults(head.stateIndex - |log0|)
        decreases target - head.stateIndex
      {
        if head.stateIndex >= |log0| {
          MoreDefaults<S>(log0, head.stateIndex);
        }
        ReplayStep();
        replayed := replayed + 1;
      }
    }

    /** Takes back one step; false at the start of history. */
    method UndoStep() returns (undone: bool)
      requires Valid()
      modifies this
      ensures Valid() && log == old(log) && undone == (old(head.stateIndex) > 0)
      ensures head.stateIndex == if undone then old(head.stateIndex) - 1 else 0
      ensures old(Spaced()) ==> Spaced()
      ensures given == old(given)
    {
      hide Traced, Frozen, Fold, Customs, Ordered, Defaults, SpacedOut;
      if head.stateIndex == 0 {
        return false;
      }
      var target := head.stateIndex - 1;
      if IsDirty() {
        MakeSnapshot();
      }
      var _ := GoToState(target);
      undone := true;
    }

    /** Repeats a step that was taken back; false at the end of history. */
    method RedoStep() returns (redone: bool)
      requires Valid()
      modifies this
      ensures Valid() && log == old(log) && redone == (old(head.stateIndex) < old(|log|))
      ensures head.stateIndex == if redone then old(head.stateIndex) + 1 else old(head.stateIndex)
      ensures old(Spaced()) ==> Spaced()
      ensures given == old(given)
    {
      hide Traced, Frozen, Fold, Customs;
      if !Detached() {
        return false;
      }
      InHistory(snapshots, head.baseSnapshotIndex, head.stateIndex);
      var _ := GoToState(head.stateIndex + 1);
      redone := true;
    }

    /** Goes to any state; past the end of history default steps are taken. */
    method GoTo(steps: nat)
      requires Valid()
      modifies this
      ensures Valid() && head.stateIndex == steps
      ensures log == if steps <= old(|log|) then old(log) else old(log) + Defaults(steps - old(|log|))
      ensures
        && |log| == (if steps <= old(|log|) then old(|log|) else steps) && log[..old(|log|)] == old(log)
        && forall k :: old(|log|) <= k < |log| ==> log[k].Default?
      ensures old(Spaced()) && steps <= old(|log|) ==> Spaced()
      ensures given == old(given)
    {
      hide Traced, Frozen, Fold, Customs, Ordered, Defaults, SpacedOut, IsBase;
      if IsDirty() {
        MakeSnapshot();
      }
      if steps > |log| {
        DefaultsAre<S>(steps - |log|);
      }
      var _ := GoToState(steps);
    }

    /** Forgets the steps after the current state. The side list of custom ticks is cut at the head's
        index, so on an attached HEAD the last custom tick is lost when that index lags behind. */
    method ClearForwardHistory()
      requires Valid()
      modifies this
      ensures head == old(head) && alloc.head == old(alloc.head)
      ensures
        && snapshots == old(snapshots[..head.baseSnapshotIndex + 1])
        && customTicks == old(customTicks[..head.nextCustomTickIndex])
      ensures forall k :: head.baseSnapshotIndex < k < |old(snapshots)| ==> !alloc.Has(old(snapshots)[k].1)
      ensures log == old(log[..head.stateIndex])
      ensures Valid() <==> old(Detached() || head.nextCustomTickIndex == |customTicks|)
      ensures customTicks == Customs(log) <==> old(Detached() || head.nextCustomTickIndex == |customTicks|)
      ensures old(Spaced()) ==> Spaced()
      ensures given == old(given)
    {
      hide Traced, Fold, Customs, SpacedOut, Frozen, Ordered;
      ghost var i := head.stateIndex;
      if Detached() {
        InHistory(snapshots, head.baseSnapshotIndex, i);
      }
      CustomsOfPrefix(log, i);
      HistoryIsSpaced(snapshots, head.baseSnapshotIndex, i);
      DropForward();
      PrefixFrozen(alloc, snapshots, head.baseSnapshotIndex, tick, init, log, i);
      snapshots := snapshots[..head.baseSnapshotIndex + 1];
      customTicks := customTicks[..head.nextCustomTickIndex];
      TracedPrefix(alloc, init, requests, tick, given, log, i);
      log := log[..i];
    }

    /** Drops all snapshots after the base of HEAD. */
    method DropForward()
      requires Valid()
      modifies this`alloc, this`requests
      ensures alloc.Valid() && alloc.head == old(alloc.head) && Traced(alloc, init, requests, tick, given, log)
      ensures Frozen(alloc, snapshots[..head.baseSnapshotIndex + 1], tick, init, log)
      ensures forall k :: head.baseSnapshotIndex < k < |snapshots| ==> !alloc.Has(snapshots[k].1)
    {
      hide Traced, Fold, Customs, Frozen, Ordered, Live;
      var k := head.baseSnapshotIndex + 1;
      FrozenParts(alloc, snapshots, k, tick, init, log);
      while k < |snapshots|
        invariant head.baseSnapshotIndex < k <= |snapshots|
        invariant alloc.Valid() && alloc.head == old(alloc.head)
        invariant Live(alloc, snapshots, k) && Traced(alloc, init, requests, tick, given, log)
        invariant Frozen(alloc, snapshots[..head.baseSnapshotIndex + 1], tick, init, log)
        invariant forall j :: head.baseSnapshotIndex < j < k ==> !alloc.Has(snapshots[j].1)
      {
        DropKeepsOthers(alloc, snapshots, head.baseSnapshotIndex + 1, k, tick, init, log);
        TracedMore(alloc, init, requests, tick, given, log, Forget(snapshots[k].1));
        alloc := alloc.DropSnapshot(snapshots[k].1);
        requests := requests + [Forget(snapshots[k].1)];
        k := k + 1;
      }
    }

    /** A step from a past state forgets the forward history first. */
    method ClearIfDetached()
      requires Valid()
      modifies this
      ensures Valid() && !Detached() && head.stateIndex == old(head.stateIndex) && alloc.head == old(alloc.head)
      ensures log == old(log[..head.stateIndex])
      ensures old(Spaced()) ==> Spaced()
      ensures given == old(given)
    {
      hide Traced, Frozen, Fold, Customs, SpacedOut;
      if Detached() {
        ClearForwardHistory();
      }
      assert log == old(log[..head.stateIndex]);
    }

    /** Number of steps since the newest snapshot. */
    method StepsSinceLastSnapshot() returns (n: nat)
      requires Ordered(snapshots) && snapshots[|snapshots| - 1].0.stateIndex <= head.stateIndex
      ensures n == head.stateIndex - snapshots[|snapshots| - 1].0.stateIndex
    {
      n := head.stateIndex - snapshots[|snapshots| - 1].0.stateIndex;
    }

    /** One default step; the forward history is forgotten. */
    method Step()
      requires Valid()
      modifies this
      ensures Valid() && !Detached() && head.stateIndex == old(head.stateIndex) + 1
      ensures log == old(log[..head.stateIndex]) + [Default]
      ensures alloc.head == tick(old(alloc.head))
      ensures old(Spaced()) ==> Spaced()
      ensures given == old(given)
    {
      hide Traced, Frozen, Fold, Customs, SpacedOut;
      ClearIfDetached();
      CustomsSplit(log, |log|);
      LogGrows(alloc, alloc.Change(tick(alloc.head)), snapshots, tick, init, log, Default);
      TracedMore(alloc, init, requests, tick, given, log, Tick(tick));
      alloc := alloc.Change(tick(alloc.head));
      requests := requests + [Tick(tick)];
      log := log + [Default];
      head := head.(stateIndex := head.stateIndex + 1);
      var n := StepsSinceLastSnapshot();
      if n > MAX_STEPS_SINCE_SNAPSHOT {
        MakeSnapshot();
      }
    }

    /** One step by a custom tick, which also answers; the forward history is forgotten. */
    method StepWith<R>(customTick: S -> (S, R)) returns (res: R)
      requires Valid()
      modifies this
      ensures Valid() && !Detached() && head.stateIndex == old(head.stateIndex) + 1
      ensures log == old(log[..head.stateIndex]) + [Custom(StateOf(customTick))]
      ensures alloc.head == customTick(old(alloc.head)).0 && res == customTick(old(alloc.head)).1
      ensures head.nextCustomTickIndex < |customTicks|
      ensures old(Spaced()) ==> Spaced()
      ensures given == old(given) + {StateOf(customTick)}
    {
      hide Traced, Frozen, Fold, Customs, SpacedOut;
      ClearIfDetached();
      ghost var e := Custom(StateOf(customTick));
      var (state, answer) := customTick(alloc.head);
      CustomsSplit(log, |log|);
      LogGrows(alloc, alloc.Change(state), snapshots, tick, init, log, e);
      TracedCustom(alloc, init, requests, tick, given, log, e.run);
      alloc := alloc.Change(state);
      requests, given := requests + [Tick(e.run)], given + {e.run};
      log := log + [e];
      res := answer;
      head := head.(nextCustomTickIndex := |customTicks|);
      customTicks := customTicks + [(head.stateIndex, StateOf(customTick))];
      head := head.(stateIndex := head.stateIndex + 1);
      var n := StepsSinceLastSnapshot();
      if n > MAX_STEPS_SINCE_SNAPSHOT {
        MakeSnapshot();
      }
    }

    /** Evaluates `pred` on every state from snapshot `k` up to `top`, and leaves HEAD at the last of them. */
    method SearchFrom<R>(k: nat, top: StateIndex, pred: S -> Option<R>) returns (last: Option<(StateIndex, R)>,
                         ghost evaluated: multiset<StateIndex>)
      requires
        && Valid() && !IsDirty() && k < |snapshots| && snapshots[k].0.stateIndex < top <= |log|
        && IsBase(snapshots, k, top - 1)
      modifies this
      ensures Valid() && snapshots == old(snapshots) && log == old(log)
      ensures head.baseSnapshotIndex == k && head.stateIndex == top - 1
      ensures !IsDirty() && (old(Spaced()) ==> Spaced())
      ensures IsLastMatch(tick, init, log, pred, snapshots[k].0.stateIndex, top, last)
      ensures OnceEach(evaluated, snapshots[k].0.stateIndex, top)
      ensures given == old(given)
    {
      hide Traced, Frozen, Fold, Customs, Ordered, SpacedOut, OnceEach, IsLastMatch;
      GoToSnapshot(k);
      ghost var log0, bottom := log, head.stateIndex;
      var r := pred(alloc.head);
      evaluated := multiset{head.stateIndex};
      last := if r.Some? then Some((head.stateIndex, r.value)) else None;
      NothingSearched(tick, init, log, pred, bottom);
      assert evaluated == multiset{} + multiset{bottom};
      OneMore(tick, init, log, pred, bottom, bottom, None, last, multiset{});
      while head.stateIndex != top - 1
        invariant Valid() && snapshots == old(snapshots) && log == log0 && head.baseSnapshotIndex == k
        invariant given == old(given)
        invariant bottom <= head.stateIndex < top
        invariant IsLastMatch(tick, init, log, pred, bottom, head.stateIndex + 1, last)
        invariant OnceEach(evaluated, bottom, head.stateIndex + 1)
        decreases top - head.stateIndex
      {
        ReplayStep();
        r := pred(alloc.head);
        ghost var before, seen := last, evaluated;
        evaluated := evaluated + multiset{head.stateIndex};
        if r.Some? {
          last := Some((head.stateIndex, r.value));
        }
        OneMore(tick, init, log, pred, bottom, head.stateIndex, before, last, seen);
      }
    }

    /** Goes back to the most recent past state that `pred` accepts, or else to the start of history.
        `visited` lists the states at which `visit` is called, and `evaluated` those `pred` was called on. */
    method UndoStepsUntil<R>(pred: S -> Option<R>) returns (reason: StopReason<R>, visited: seq<StateIndex>,
                             ghost evaluated: multiset<StateIndex>)
      requires Valid()
      modifies this
      ensures Valid() && log == old(log) && (old(Spaced()) ==> Spaced())
      ensures IsLastMatch(tick, init, log, pred, 0, old(head.stateIndex),
                          if reason.Pred? then Some((head.stateIndex, reason.value)) else None)
      ensures reason.ReachedStart? ==> head.stateIndex == 0
      ensures reason.Pred? ==> head.stateIndex < old(head.stateIndex) && pred(alloc.head) == Some(reason.value)
      ensures forall i: StateIndex :: (reason.Pred? ==> head.stateIndex < i) && i < old(head.stateIndex) ==>
        pred(StateAt(i)).None?
      ensures forall i: StateIndex :: evaluated[i] <= 1
      ensures forall i: StateIndex :: head.stateIndex <= i < old(head.stateIndex) ==> evaluated[i] == 1
      ensures forall j, k :: 0 <= j < k < |visited| ==> visited[j] > visited[k]
      ensures forall j :: 0 <= j < |visited| ==> head.stateIndex <= visited[j] < old(head.stateIndex)
      ensures reason.Pred? ==> visited != [] && visited[|visited| - 1] == head.stateIndex
      ensures old(head.stateIndex) > 0 ==> 1 <= |visited| <= old(head.stateIndex) - head.stateIndex
      ensures given == old(given)
    {
      hide Traced, Frozen, Fold, Customs, SpacedOut, Ordered, IsBase, IsLastMatch, OnceEach;
      visited, evaluated := [], multiset{};
      NothingSearched(tick, init, log, pred, head.stateIndex);
      if head.stateIndex == 0 {
        return ReachedStart, visited, evaluated;
      }
      ghost var log0, start := log, head.stateIndex;
      var top := head.stateIndex;
      var n := SearchStart();
      ghost var kept := snapshots;
      while n > 0
        invariant 0 <= n <= |snapshots| && Valid() && !IsDirty() && snapshots == kept && log == log0
        invariant given == old(given)
        invariant top <= start && (n == 0 ==> top == 0)
        invariant n > 0 ==> snapshots[n - 1].0.stateIndex < top && IsBase(snapshots, n - 1, top - 1)
        invariant IsLastMatch<S, R>(tick, init, log, pred, top, start, None)
        invariant OnceEach(evaluated, top, start)
        invariant forall j, k :: 0 <= j < k < |visited| ==> visited[j] > visited[k]
        invariant forall j :: 0 <= j < |visited| ==> top <= visited[j] < start
        invariant (if top < start then 1 else 0) <= |visited| <= start - top
        invariant old(Spaced()) ==> Spaced()
      {
        n := n - 1;
        var last, seen := SearchFrom(n, top, pred);
        ghost var bottom := snapshots[n].0.stateIndex;
        MatchesJoin(tick, init, log, pred, bottom, top, start, last);
        SearchedOnce(evaluated, seen, bottom, top, start);
        evaluated := evaluated + seen;
        if last.Some? {
          var (state, r) := last.value;
          GoBackTo(n, state);
          visited := visited + [state];
          SearchEnds(tick, init, log, pred, bottom, start, last, evaluated);
          return Pred(r), visited, evaluated;
        }
        visited := visited + [head.stateIndex];
        PreviousBase(snapshots, n);
        top := snapshots[n].0.stateIndex;
      }
      GoToSnapshot(0);
      FirstIsStart(snapshots);
      SearchEnds<S, R>(tick, init, log, pred, 0, start, None, evaluated);
      reason := ReachedStart;
    }

    /** Saves the newest state, and finds the number of snapshots before the current state. */
    method SearchStart() returns (n: nat)
      requires Valid() && head.stateIndex > 0
      modifies this
      ensures Valid() && !IsDirty() && log == old(log) && head.stateIndex == old(head.stateIndex)
      ensures old(Spaced()) ==> Spaced()
      ensures
        && 0 < n <= |snapshots| && snapshots[n - 1].0.stateIndex < head.stateIndex
        && IsBase(snapshots, n - 1, head.stateIndex - 1)
      ensures given == old(given)
    {
      hide Traced, Frozen, Fold, Customs, SpacedOut;
      if IsDirty() {
        MakeSnapshot();
      }
      n := if AtSnapshot() then head.baseSnapshotIndex else head.baseSnapshotIndex + 1;
    }

    /** Goes to an earlier or the current state of the part of history that snapshot `k` is the base of. */
    method GoBackTo(k: nat, state: StateIndex)
      requires
        && Valid() && !IsDirty() && head.baseSnapshotIndex == k && snapshots[k].0.stateIndex <= state <= head.stateIndex
      modifies this
      ensures Valid() && !IsDirty() && snapshots == old(snapshots) && log == old(log) && head.stateIndex == state
      ensures old(Spaced()) ==> Spaced()
      ensures given == old(given)
    {
      hide Traced, Frozen, Fold, Customs, SpacedOut;
      if state < head.stateIndex {
        GoToSnapshot(k);
      }
      var _ := ReplayTo(state);
    }
  }
}
