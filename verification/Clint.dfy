/** The core-local interruptor: the timer, and the line it drives: the MTIP bit of the core. */
module Clints {
  import opened Integers
  import opened Options
  import opened InterruptRegisters

  const MTIMECMP_LO: u32 := 0x4000
  const MTIMECMP_HI: u32 := 0x4004
  const MTIME_LO: u32 := 0xBFF8
  const MTIME_HI: u32 := 0xBFFC

  type u64 = x: int | 0 <= x < 0x1_0000_0000_0000_0000

  const U64_MAX: u64 := 0xFFFF_FFFF_FFFF_FFFF

  datatype State = State(mtime: u64, mtimecmp: u64)

  const INITIAL: State := State(0, 0)

  predicate NeedsInterrupt(s: State) {
    s.mtimecmp <= s.mtime
  }

  // ---------- Writing half of a register ----------

  /** The halves are combined with a bitwise and. */
  function SetHigher(register: u64, value: u32): u64 {
    (((value as bv64) << 32) & ((register as bv64) & 0xFFFF_FFFF)) as u64
  }

  function SetLower(register: u64, value: u32): u64 {
    (((register as bv64) & 0xFFFF_FFFF_0000_0000) & ((value as bv64) & 0xFFFF_FFFF)) as u64
  }

  /** What writing one half of a register is for. */
  function HigherReplaced(register: u64, value: u32): u64 {
    value * 0x1_0000_0000 + register % 0x1_0000_0000
  }

  function LowerReplaced(register: u64, value: u32): u64 {
    register - register % 0x1_0000_0000 + value
  }

  lemma Halves(register: bv64, value: bv64)
    ensures (value << 32) & (register & 0xFFFF_FFFF) == 0
    ensures (register & 0xFFFF_FFFF_0000_0000) & (value & 0xFFFF_FFFF) == 0
  {
  }

  /** Writing half of a register clears all of it, so it does what it is for exactly when that half is
      written as zero and the other half is zero already. */
  lemma WordWriteClears(register: u64, value: u32)
    ensures SetHigher(register, value) == 0 && SetLower(register, value) == 0
    ensures SetHigher(register, value) == HigherReplaced(register, value) <==>
      value == 0 && register % 0x1_0000_0000 == 0
    ensures SetLower(register, value) == LowerReplaced(register, value) <==> value == 0 && register < 0x1_0000_0000
  {
    Halves(register as bv64, value as bv64);
  }

  // ---------- What happens to the timer ----------

  datatype Event = WordWrite(address: u32, value: u32) | LongWrite(address: u32, long: u64) | Ticked | Restarted

  function After(s: State, e: Event): State {
    match e
    case WordWrite(a, value) =>
      if a == MTIMECMP_HI then s.(mtimecmp := SetHigher(s.mtimecmp, value))
      else if a == MTIMECMP_LO then s.(mtimecmp := SetLower(s.mtimecmp, value))
      else if a == MTIME_HI then s.(mtime := SetHigher(s.mtime, value))
      else if a == MTIME_LO then s.(mtime := SetLower(s.mtime, value))
      else s
    case LongWrite(a, value) =>
      if a == MTIMECMP_HI then s.(mtimecmp := value) else if a == MTIME_HI then s.(mtime := value) else s
    case Ticked => s.(mtime := if s.mtime == U64_MAX then 0 else s.mtime + 1)
    case Restarted => s.(mtime := 0)
  }

  /** What stores, ticks and restarts make of the registers, by address: a store of 8 bytes at the address
      of the higher half sets a register, one of 4 bytes clears the register of that half, and no other
      address is decoded. */
  lemma RegistersByAddress(s: State, a: u32, word: u32, long: u64)
    ensures After(s, WordWrite(a, word)) == (if a == 0x4000 || a == 0x4004 then State(s.mtime, 0)
      else if a == 0xBFF8 || a == 0xBFFC then State(0, s.mtimecmp) else s)
    ensures After(s, LongWrite(a, long)) == (if a == 0x4004 then State(s.mtime, long)
      else if a == 0xBFFC then State(long, s.mtimecmp) else s)
    ensures After(s, Ticked) == State((s.mtime + 1) % 0x1_0000_0000_0000_0000, s.mtimecmp)
    ensures After(s, Restarted) == State(0, s.mtimecmp)
  {
    hide SetHigher, SetLower, HigherReplaced, LowerReplaced;
    WordWriteClears(s.mtimecmp, word);
    WordWriteClears(s.mtime, word);
  }

  /** What the core is told when the state changes. */
  function Emitted(s: State, t: State): seq<LineChange> {
    if NeedsInterrupt(s) && !NeedsInterrupt(t) then [Down(MachineTimer)]
    else if !NeedsInterrupt(s) && NeedsInterrupt(t) then [Up(MachineTimer)]
    else []
  }

  /** When the line is moved, told from the state and the event. Half of mtimecmp raises it if it is
      low, half of mtime lowers it if it is high and mtimecmp is not zero. */
  function Moves(s: State, e: Event): Option<LineChange> {
    var t, cmp := s.mtime, s.mtimecmp;
    match e
    case WordWrite(a, _) =>
      if a in {MTIMECMP_LO, MTIMECMP_HI} && cmp > t then Some(Up(MachineTimer))
      else if a in {MTIME_LO, MTIME_HI} && 0 < cmp <= t then Some(Down(MachineTimer))
      else None
    case LongWrite(a, value) =>
      if a == MTIMECMP_HI && cmp <= t < value then Some(Down(MachineTimer))
      else if a == MTIMECMP_HI && value <= t < cmp then Some(Up(MachineTimer))
      else if a == MTIME_HI && value < cmp <= t then Some(Down(MachineTimer))
      else if a == MTIME_HI && t < cmp <= value then Some(Up(MachineTimer))
      else None
    case Ticked =>
      if t != U64_MAX && cmp == t + 1 then Some(Up(MachineTimer))
      else if t == U64_MAX && cmp != 0 then Some(Down(MachineTimer))
      else None
    case Restarted => if 0 < cmp <= t then Some(Down(MachineTimer)) else None
  }

  lemma MovesExactly(s: State, e: Event)
    ensures Emitted(s, After(s, e)) == match Moves(s, e) case Some(change) => [change] case None => []
  {
    hide SetHigher, SetLower, HigherReplaced, LowerReplaced;
    match e
    case WordWrite(_, value) =>
      WordWriteClears(s.mtimecmp, value);
      WordWriteClears(s.mtime, value);
    case _ =>
  }

  function AfterAll(s: State, events: seq<Event>): State {
    if events == [] then s else After(AfterAll(s, events[..|events| - 1]), events[|events| - 1])
  }

  /** All that the core is told during some events. */
  function EmittedAll(s: State, events: seq<Event>): seq<LineChange> {
    if events == [] then []
    else
      var before := events[..|events| - 1];
      EmittedAll(s, before) + Emitted(AfterAll(s, before), AfterAll(s, events))
  }

  /** An 8-byte write that gives mtimecmp a value other than zero. */
  predicate Arms(e: Event) {
    e.LongWrite? && e.address == MTIMECMP_HI && e.long != 0
  }

  /** Until mtimecmp is first written in whole, no stores, ticks and restarts ever move the line. */
  lemma {:induction false} NeverMoved(events: seq<Event>)
    requires forall e :: e in events ==> !Arms(e)
    ensures EmittedAll(INITIAL, events) == [] && AfterAll(INITIAL, events).mtimecmp == 0
  {
    hide SetHigher, SetLower, HigherReplaced, LowerReplaced;
    if events != [] {
      var n := |events| - 1;
      NeverMoved(events[..n]);
      assert events[n] in events;
      var s := AfterAll(INITIAL, events[..n]);
      if events[n].WordWrite? {
        WordWriteClears(s.mtimecmp, events[n].value);
      }
    }
  }

  /** The line ends high exactly when an interrupt is needed and was not needed at some time before:
      it stays low although mtimecmp is not above mtime in the beginning. */
  lemma {:induction false} LineAfter(events: seq<Event>)
    ensures LevelAfter(EmittedAll(INITIAL, events), MachineTimer, false) <==>
      && NeedsInterrupt(AfterAll(INITIAL, events))
      && exists k :: 0 <= k <= |events| && !NeedsInterrupt(AfterAll(INITIAL, events[..k]))
  {
    hide After, NeedsInterrupt;
    assert events[..|events|] == events;
    if events == [] {
      InitiallyNeeded();
    } else {
      var n := |events| - 1;
      var before := events[..n];
      LineAfter(before);
      LevelAfterMore(EmittedAll(INITIAL, before), Emitted(AfterAll(INITIAL, before), AfterAll(INITIAL, events)),
                     MachineTimer, false);
      forall k | 0 <= k <= n ensures before[..k] == events[..k] {
      }
      assert events[..n] == before;
    }
  }

  lemma InitiallyNeeded()
    ensures NeedsInterrupt(INITIAL)
  {
  }

  // ---------- Reading ----------

  function High(register: u64): u32 {
    register / 0x1_0000_0000
  }

  function Low(register: u64): u32 {
    register % 0x1_0000_0000
  }

  function ReadWord(s: State, address: u32): u32 {
    if address == MTIMECMP_HI then High(s.mtimecmp)
    else if address == MTIMECMP_LO then Low(s.mtimecmp)
    else if address == MTIME_HI then High(s.mtime)
    else if address == MTIME_LO then Low(s.mtime)
    else 0
  }

  /** The word at the address becomes the higher half of what is read. */
  function ReadLong(s: State, address: u32): u64
    requires address + 4 <= U32_MAX
  {
    ReadWord(s, address) * 0x1_0000_0000 + ReadWord(s, address + 4)
  }

  /** What 4 bytes at each address read as. */
  lemma WordsByAddress(s: State, a: u32)
    ensures ReadWord(s, a) == if a == 0x4000 then s.mtimecmp % 0x1_0000_0000
      else if a == 0x4004 then s.mtimecmp / 0x1_0000_0000
      else if a == 0xBFF8 then s.mtime % 0x1_0000_0000
      else if a == 0xBFFC then s.mtime / 0x1_0000_0000
      else 0
  {
  }

  /** An 8-byte read has the halves the wrong way round: it gives a register exactly when its halves are
      equal, or, where 8-byte writes go to, when its lower half is zero. */
  lemma LongReadIsSwapped(s: State)
    ensures ReadLong(s, MTIMECMP_LO) == s.mtimecmp <==> High(s.mtimecmp) == Low(s.mtimecmp)
    ensures ReadLong(s, MTIME_LO) == s.mtime <==> High(s.mtime) == Low(s.mtime)
    ensures ReadLong(s, MTIMECMP_HI) == s.mtimecmp <==> Low(s.mtimecmp) == 0
    ensures ReadLong(s, MTIME_HI) == s.mtime <==> Low(s.mtime) == 0
  {
    TwoHalves(s.mtimecmp);
    TwoHalves(s.mtime);
    hide High, Low;
  }

  /** What the time and timeh registers of the core read, 8 bytes at the lower half of mtime. */
  function ReadTime(s: State): u32 {
    ReadLong(s, MTIME_LO) % 0x1_0000_0000
  }

  function ReadTimeh(s: State): u32 {
    ReadLong(s, MTIME_LO) / 0x1_0000_0000
  }

  /** So time shows the higher half of mtime and timeh the lower one, which is right exactly when they are
      equal. */
  lemma TimeIsSwapped(s: State)
    ensures ReadTime(s) == High(s.mtime) && ReadTimeh(s) == Low(s.mtime)
    ensures ReadTime(s) == Low(s.mtime) && ReadTimeh(s) == High(s.mtime) <==> High(s.mtime) == Low(s.mtime)
  {
  }

  lemma TwoHalves(register: u64)
    ensures register == High(register) * 0x1_0000_0000 + Low(register)
  {
  }

  // ---------- The timer ----------

  class Clint {
    var state: State
    /** What the interrupt callback last told the core. */
    var line: bool

    constructor ()
      ensures state == INITIAL && !line
    {
      state, line := INITIAL, false;
    }

    /** Applies `op`, and tells the core when that changed whether an interrupt is needed. */
    method Update(op: State -> State)
      modifies this
      ensures state == op(old(state)) && line == LevelAfter(Emitted(old(state), state), MachineTimer, old(line))
    {
      var before := NeedsInterrupt(state);
      state := op(state);
      var after := NeedsInterrupt(state);
      if before && !after {
        line := false;
      } else if !before && after {
        line := true;
      }
    }

    method Reset()
      modifies this
      ensures
        && state == After(old(state), Restarted)
        && line == LevelAfter(Emitted(old(state), state), MachineTimer, old(line))
    {
      Update((s: State) => s.(mtime := 0));
    }

    method Step()
      modifies this
      ensures
        && state == After(old(state), Ticked) && line == LevelAfter(Emitted(old(state), state), MachineTimer, old(line))
    {
      Update((s: State) => s.(mtime := if s.mtime == U64_MAX then 0 else s.mtime + 1));
    }

    /** A 4-byte write. */
    method WriteWord(address: u32, value: u32)
      modifies this
      ensures state == After(old(state), WordWrite(address, value))
      ensures line == LevelAfter(Emitted(old(state), state), MachineTimer, old(line))
    {
      hide SetHigher, SetLower;
      if address % 4 != 0 {
        return;
      }
      if address == MTIMECMP_HI {
        Update((s: State) => s.(mtimecmp := SetHigher(s.mtimecmp, value)));
      } else if address == MTIMECMP_LO {
        Update((s: State) => s.(mtimecmp := SetLower(s.mtimecmp, value)));
      } else if address == MTIME_HI {
        Update((s: State) => s.(mtime := SetHigher(s.mtime, value)));
      } else if address == MTIME_LO {
        Update((s: State) => s.(mtime := SetLower(s.mtime, value)));
      }
    }

    /** An 8-byte write. */
    method WriteLong(address: u32, value: u64)
      modifies this
      ensures state == After(old(state), LongWrite(address, value))
      ensures line == LevelAfter(Emitted(old(state), state), MachineTimer, old(line))
    {
      if address % 4 != 0 {
        return;
      }
      if address == MTIMECMP_HI {
        Update((s: State) => s.(mtimecmp := value));
      } else if address == MTIME_HI {
        Update((s: State) => s.(mtime := value));
      }
    }
  }

  /** In every run of stores, ticks and restarts the line ends high exactly when an interrupt is needed
      and was not needed at some time before. */
  method Drive(events: seq<Event>) returns (clint: Clint)
    ensures clint.state == AfterAll(INITIAL, events)
    ensures clint.line <==>
      NeedsInterrupt(clint.state) && exists k :: 0 <= k <= |events| && !NeedsInterrupt(AfterAll(INITIAL, events[..k]))
  {
    hide After, NeedsInterrupt, Emitted;
    clint := new Clint();
    for k := 0 to |events|
      invariant fresh(clint) && clint.state == AfterAll(INITIAL, events[..k])
      invariant clint.line == LevelAfter(EmittedAll(INITIAL, events[..k]), MachineTimer, false)
    {
      assert events[..k + 1][..k] == events[..k];
      LevelAfterMore(EmittedAll(INITIAL, events[..k]),
                     Emitted(AfterAll(INITIAL, events[..k]), AfterAll(INITIAL, events[..k + 1])), MachineTimer, false);
      match events[k]
      case WordWrite(a, value) => clint.WriteWord(a, value);
      case LongWrite(a, value) => clint.WriteLong(a, value);
      case Ticked => clint.Step();
      case Restarted => clint.Reset();
    }
    assert events[..|events|] == events;
    LineAfter(events);
  }
}
