/** Short runs of the hart in which the code does not do what the privileged architecture asks for,
    one for each condition that is found exact elsewhere. */
module Departures {
  import opened Integers
  import opened Options
  import opened Privileges
  import opened Words
  import opened Statuses
  import opened InterruptRegisters
  import opened TrapRegisters
  import opened Harts
  import opened HartProperties
  import opened Machines
  import AddressMaps
  import Boards
  import Clints
  import Mmus

  /** Memory holds `i` wherever it is fetched from, and no device reacts. */
  function Holding(i: Instruction): u32 -> Answer<Fetched> {
    address => Answer(Decoded(i), [])
  }

  function Executing(i: Instruction): Event {
    Stepped(Holding(i))
  }

  lemma RunMore(v: Vectors, events: seq<Event>, e: Event)
    requires Aligned(v.reset) && Aligned(v.nmi)
    ensures Run(v, events + [e]) == Happen(Run(v, events), v, e)
  {
    assert (events + [e])[..|events|] == events;
  }

  /** Without interrupts and exceptions a step is what its instruction does. */
  lemma PlainStep(h: Hart, v: Vectors, i: Instruction)
    requires GoodHart(h) && h.interrupts.mip * h.interrupts.mie == {}
    requires
      && Execute(h, i).exception.None? && Execute(h, i).hart.interrupts.mip * Execute(h, i).hart.interrupts.mie == {}
    ensures Happen(h, v, Executing(i)) == Execute(h, i).hart
  {
    hide GoodHart, Execute;
    NothingReady(h);
    NothingReady(Execute(h, i).hart);
    DriveNothing(h.interrupts);
  }

  lemma NothingReady(h: Hart)
    requires h.interrupts.mip * h.interrupts.mie == {}
    ensures HighestReady(h).None?
  {
  }

  lemma {:induction false} PowerBits(k: nat, i: nat)
    ensures BitsFrom(Pow2(k), i) == {i + k}
  {
    if k == 0 {
      assert BitsFrom(1, i) == {i} + BitsFrom(0, i + 1);
    } else {
      PowerBits(k - 1, i + 1);
      assert Pow2(k) / 2 == Pow2(k - 1) && Pow2(k) % 2 == 0;
    }
  }

  lemma SmallWords()
    ensures BitsOf(1) == {0} && BitsOf(2) == {1} && BitsOf(8) == {3} && BitsOf(0x800) == {11}
  {
    hide BitsFrom;
    PowerBits(0, 0);
    PowerBits(1, 0);
    PowerBits(3, 0);
    PowerBits(11, 0);
    FourMore(3);
    FourMore(7);
    assert Pow2(1) == 2 && Pow2(2) == 2 * Pow2(1) && Pow2(3) == 2 * Pow2(2);
  }

  /** `csrwi csr, value` */
  function WriteImmediate(csr: Csr, value: u32): Instruction {
    CsrImm(ReadWrite, 0, csr, value)
  }

  /** A write in machine mode that makes no interrupt ready. */
  lemma WriteStep(h: Hart, v: Vectors, csr: Csr, value: u32)
    requires GoodHart(h) && !WriteFails(h, csr) && h.interrupts.mip * h.interrupts.mie == {}
    requires var g := WriteCsr(h, csr, BitsOf(value), ALL).value; g.interrupts.mip * g.interrupts.mie == {}
    ensures Happen(h, v, Executing(WriteImmediate(csr, value))) == Next(WriteCsr(h, csr, BitsOf(value), ALL).value).hart
  {
    hide BitsOf, GoodHart, WriteStatusCsr, WriteTrapCsr, WriteInterruptCsr, WriteEnvcfgCsr, Happen, WriteFails;
    PlainStep(h, v, WriteImmediate(csr, value));
  }

  // ---------- Interrupts ----------

  /** The supervisor software interrupt is delegated and enabled, machine mode enables its interrupts,
      and sets the interrupt pending. */
  const DELEGATED_INTERRUPT: seq<Event> := [
    Executing(WriteImmediate(CsrMideleg, 2)),
    Executing(WriteImmediate(CsrMie, 2)),
    Executing(WriteImmediate(CsrMstatus, 8)),
    Executing(WriteImmediate(CsrMip, 2))
  ]

  /** A delegated interrupt is taken in machine mode: `h` is the hart before the last instruction, and
      `g` what the instruction makes of it. */
  lemma DelegatedInterruptIsTaken(v: Vectors)
    requires Aligned(v.reset) && Aligned(v.nmi)
    ensures GoodHart(Run(v, DELEGATED_INTERRUPT[..3]))
    ensures var h := Run(v, DELEGATED_INTERRUPT[..3]);
      var g := Execute(h, WriteImmediate(CsrMip, 2)).hart;
      && g.privilege.Machine? && HighestReady(g) == Some(SupervisorSoftware) && !Prescribed(g, SupervisorSoftware)
      && Run(v, DELEGATED_INTERRUPT) == MachineTrap(g, ByInterrupt(Some(SupervisorSoftware)))
  {
    hide GoodHart, Happen, Run, BitsOf, WriteMstatus;
    SmallWords();
    var e := DELEGATED_INTERRUPT;
    RunOfFour(v, e);
    var h0 := Run(v, []);
    RunStart(v);
    WriteStep(h0, v, CsrMideleg, 2);
    var h1 := Run(v, e[..1]);
    assert h1.interrupts == Interrupts({1}, false, false, {}, {});
    WriteStep(h1, v, CsrMie, 2);
    var h2 := Run(v, e[..2]);
    assert h2.interrupts == Interrupts({1}, false, false, {}, {1});
    WriteStep(h2, v, CsrMstatus, 8);
    var h3 := Run(v, e[..3]);
    MieIsSet(h2);
    assert h3.interrupts == Interrupts({1}, false, false, {}, {1}) && h3.status.mie && h3.privilege.Machine?;
    SetPending(h3, v);
  }

  lemma RunStart(v: Vectors)
    requires Aligned(v.reset) && Aligned(v.nmi)
    ensures Run(v, []) == StartState(v)
  {
  }

  lemma RunOfFour(v: Vectors, e: seq<Event>)
    requires Aligned(v.reset) && Aligned(v.nmi) && |e| == 4
    ensures Run(v, e[..1]) == Happen(Run(v, []), v, e[0]) && Run(v, e[..2]) == Happen(Run(v, e[..1]), v, e[1])
    ensures Run(v, e[..3]) == Happen(Run(v, e[..2]), v, e[2]) && Run(v, e) == Happen(Run(v, e[..3]), v, e[3])
  {
    hide Run, Happen;
    RunMore(v, [], e[0]);
    RunMore(v, e[..1], e[1]);
    RunMore(v, e[..2], e[2]);
    RunMore(v, e[..3], e[3]);
    assert e[..1] == [] + [e[0]] && e[..2] == e[..1] + [e[1]] && e[..3] == e[..2] + [e[2]] && e == e[..3] + [e[3]];
  }

  lemma MieIsSet(h: Hart)
    requires GoodHart(h)
    ensures WriteMstatus(h.status, {3}, ALL).mie
  {
  }

  lemma SetPending(h: Hart, v: Vectors)
    requires
      && GoodHart(h) && h.interrupts == Interrupts({1}, false, false, {}, {1}) && h.status.mie && h.privilege.Machine?
    requires BitsOf(2) == {1}
    ensures var g := Execute(h, WriteImmediate(CsrMip, 2)).hart;
      && g.privilege.Machine? && HighestReady(g) == Some(SupervisorSoftware) && !Prescribed(g, SupervisorSoftware)
      && Happen(h, v, Executing(WriteImmediate(CsrMip, 2))) == MachineTrap(g, ByInterrupt(Some(SupervisorSoftware)))
  {
    hide Execute, FirstIn, BitsOf, Statuses.Good, TrapRegisters.Good, InterruptRegisters.Good, Aligned, IsWord,
         WriteMstatus,
         WriteSstatus, WriteMstatush, MachineTrap;
    NothingReady(h);
    DriveNothing(h.interrupts);
    var g := Execute(h, WriteImmediate(CsrMip, 2)).hart;
    MipIsWritten(h);
    assert ReadyFor(g.interrupts, false) == {} && ReadyFor(g.interrupts, true) == {1};
    FirstInMachineOrder({});
    assert Bit({1}, SupervisorSoftware) && !Bit({1}, SupervisorExternal);
    FirstInSupervisorOrder({1});
  }

  lemma MipIsWritten(h: Hart)
    requires
      && GoodHart(h) && h.interrupts == Interrupts({1}, false, false, {}, {1}) && h.privilege.Machine?
      && BitsOf(2) == {1}
    ensures var done := Execute(h, WriteImmediate(CsrMip, 2));
      && done.exception.None?
      && done.hart == h.(pc := WrappingAdd(h.pc, 4), interrupts := Interrupts({1}, false, false, {1}, {1}))
  {
    hide BitsOf, Statuses.Good, TrapRegisters.Good, InterruptRegisters.Good, Aligned, IsWord, WriteMstatus,
         WriteSstatus,
         WriteMstatush;
  }

  // ---------- Causes ----------

  /** Breakpoints are delegated, the hart goes to user mode, and there it meets one. */
  const DELEGATED_BREAKPOINT: seq<Event> := [
    Executing(WriteImmediate(CsrMedeleg, 8)),
    Executing(MretInstruction),
    Executing(Ebreak)
  ]

  /** In the handler of a breakpoint, whose code is 3, scause reads as 0. */
  lemma ScauseIsWrong(v: Vectors)
    requires Aligned(v.reset) && Aligned(v.nmi)
    ensures var h := Run(v, DELEGATED_BREAKPOINT);
      h.privilege.Supervisor? && h.trap.lastS == ByException(Some(Breakpoint)) && ReadCsr(h, CsrScause) == Some(0)
  {
    hide GoodHart, Happen, Run, BitsOf, NumberOf;
    SmallWords();
    var e := DELEGATED_BREAKPOINT;
    RunOfThree(v, e);
    RunStart(v);
    var h0, h1, h2 := Run(v, []), Run(v, e[..1]), Run(v, e[..2]);
    WriteStep(h0, v, CsrMedeleg, 8);
    assert h1.trap == TrapRegisters.RESET.(medeleg := {3}) && h1.interrupts == InterruptRegisters.RESET;
    StatusOf(h1);
    PlainStep(h1, v, MretInstruction);
    assert h2.privilege.User? && h2.trap == h1.trap && h2.interrupts == h1.interrupts;
    BreakpointInUserMode(h2, v);
  }

  lemma RunOfThree(v: Vectors, e: seq<Event>)
    requires Aligned(v.reset) && Aligned(v.nmi) && |e| == 3
    ensures Run(v, e[..1]) == Happen(Run(v, []), v, e[0]) && Run(v, e[..2]) == Happen(Run(v, e[..1]), v, e[1])
    ensures Run(v, e) == Happen(Run(v, e[..2]), v, e[2])
  {
    hide Run, Happen;
    RunMore(v, [], e[0]);
    RunMore(v, e[..1], e[1]);
    RunMore(v, e[..2], e[2]);
    assert e[..1] == [] + [e[0]] && e[..2] == e[..1] + [e[1]] && e == e[..2] + [e[2]];
  }

  lemma StatusOf(h: Hart)
    requires GoodHart(h)
    ensures Statuses.Good(h.status)
  {
  }

  lemma BreakpointInUserMode(h: Hart, v: Vectors)
    requires GoodHart(h) && h.privilege.User? && h.interrupts == InterruptRegisters.RESET
    requires h.trap == TrapRegisters.RESET.(medeleg := {3})
    ensures var g := Happen(h, v, Executing(Ebreak));
      GoodHart(g) && g.privilege.Supervisor? && g.trap.lastS == ByException(Some(Breakpoint))
        && ReadCsr(g, CsrScause) == Some(0)
  {
    hide HandlerAddress, EnterSupervisor, Statuses.Good, InterruptRegisters.Good, Aligned, IsWord;
    StepKeeps(h, Holding(Ebreak));
    var g := SupervisorTrap(h, ByException(Some(Breakpoint)));
    DriveNothing(h.interrupts);
    NothingReady(h);
    NothingReady(g);
  }

  // ---------- Exceptions ----------

  /** Writing the cycle counter, which is 1 after one step, raises an exception after it was read into
      register 5. */
  lemma RefusedWriteHasRead(v: Vectors)
    requires Aligned(v.reset) && Aligned(v.nmi)
    ensures var h := Run(v, [Executing(Fence)]);
      var done := Execute(h, CsrImm(ReadWrite, 5, CsrOther(0, Some(1), true), 0));
      done.exception.Some? && h.x == seq(32, _ => 0) && done.hart == h.(x := h.x[5 := 1])
  {
    hide BitsOf, Run, Happen, GoodHart, ReadCsr, WriteCsr;
    RunStart(v);
    RunMore(v, [], Executing(Fence));
    assert [] + [Executing(Fence)] == [Executing(Fence)];
    PlainStep(Run(v, []), v, Fence);
    CycleIsReadOnly(Run(v, [Executing(Fence)]));
  }

  lemma CycleIsReadOnly(h: Hart)
    requires GoodHart(h)
    ensures var done := Execute(h, CsrImm(ReadWrite, 5, CsrOther(0, Some(1), true), 0));
      |h.x| == 32 && done.exception.Some? && done.hart == h.(x := h.x[5 := 1])
  {
    hide BitsOf, Statuses.Good, TrapRegisters.Good, InterruptRegisters.Good, Aligned, IsWord, WriteStatusCsr,
         WriteTrapCsr,
         WriteInterruptCsr, WriteEnvcfgCsr;
  }

  /** A store-conditional that fails in memory has cleared its destination. */
  lemma FailedStoreHasCleared(v: Vectors)
    requires Aligned(v.reset) && Aligned(v.nmi)
    ensures var h := Run(v, [Executing(Lui(5, 0x1000))]);
      var i := StoreConditional(5, 0, 0, (a: u32, w: u32) => Answer(Some(AccessFault), []));
      Execute(h, i).exception.Some? && h.x[5] == 0x1000 && Execute(h, i).hart.x[5] == 0
  {
    hide Run, Happen, Drive;
    RunStart(v);
    RunMore(v, [], Executing(Lui(5, 0x1000)));
    assert [] + [Executing(Lui(5, 0x1000))] == [Executing(Lui(5, 0x1000))];
    PlainStep(Run(v, []), v, Lui(5, 0x1000));
  }

  // ---------- Supervisor mode ----------

  /** An instruction that accesses no memory, and the tick of the timer that follows it. */
  function Ticking(i: Instruction): Moment {
    Moment(Executing(i), [], [Clints.Ticked])
  }

  /** The host writes `cmp` to mtimecmp, as a debugger can. Then machine mode writes satp, sets the
      previous privilege level to supervisor mode and returns to it. */
  function IntoSupervisor(satp: u32, cmp: Clints.u64): seq<Moment> {
    [
      Moment(LineChanged(Down(MachineTimer)), [], [Clints.LongWrite(Clints.MTIMECMP_HI, cmp)]),
      Ticking(RegImm(5, 0, (w: u32) => satp)),
      Ticking(CsrReg(ReadWrite, 0, CsrSatp, 5)),
      Ticking(RegImm(5, 0, (w: u32) => 0x800)),
      Ticking(CsrReg(ReadWrite, 0, CsrMstatus, 5)),
      Moment(Executing(MretInstruction), [], [])
    ]
  }

  /** The hart after a timed run. */
  function HartAfter(v: Vectors, run: seq<Moment>): Hart
    requires Aligned(v.reset) && Aligned(v.nmi)
  {
    Run(v, HartEvents(run))
  }

  /** An instruction that accesses no memory, with ticks that do not reach mtimecmp. */
  lemma QuietStep(v: Vectors, run: seq<Moment>, i: Instruction, ticks: seq<Clints.Event>)
    requires Aligned(v.reset) && Aligned(v.nmi) && Timed(v, run)
    requires var h := HartAfter(v, run);
      && GoodHart(h) && h.interrupts.mip * h.interrupts.mie == {} && !IsMemory(i)
      && Execute(h, i).exception.None? && Execute(h, i).hart.interrupts.mip * Execute(h, i).hart.interrupts.mie == {}
    requires ticks == [] || (ticks == [Clints.Ticked] && Timer(run).mtime + 1 < Timer(run).mtimecmp)
    ensures Timed(v, run + [Moment(Executing(i), [], ticks)])
    ensures HartAfter(v, run + [Moment(Executing(i), [], ticks)]) == Execute(HartAfter(v, run), i).hart
    ensures Timer(run + [Moment(Executing(i), [], ticks)])
      == Timer(run).(mtime := if ticks == [] then Timer(run).mtime else Timer(run).mtime + 1)
  {
    hide GoodHart, Execute, Happen, Run, Timed, HartEvents, Timer;
    var h := HartAfter(v, run);
    PlainStep(h, v, i);
    LengthOfGood(h);
    NothingReady(h);
    Clints.MovesExactly(Timer(run), Clints.Ticked);
    QuietTimer(Timer(run), ticks);
    OneMore(v, run, Moment(Executing(i), [], ticks));
  }

  lemma QuietTimer(s: Clints.State, ticks: seq<Clints.Event>)
    requires ticks == [] || (ticks == [Clints.Ticked] && s.mtime + 1 < s.mtimecmp)
    ensures Clints.EmittedAll(s, ticks) == []
    ensures Clints.AfterAll(s, ticks) == s.(mtime := if ticks == [] then s.mtime else s.mtime + 1)
  {
    assert ticks != [] ==> ticks[..0] == [];
  }

  /** The first moment: the core is told that no interrupt is needed, though it was never told otherwise. */
  lemma TimerIsSet(v: Vectors, m: Moment, cmp: Clints.u64)
    requires Aligned(v.reset) && Aligned(v.nmi) && cmp > 0
    requires m == Moment(LineChanged(Down(MachineTimer)), [], [Clints.LongWrite(Clints.MTIMECMP_HI, cmp)])
    ensures Timed(v, [m]) && Timer([m]) == Clints.State(0, cmp) && HartAfter(v, [m]) == StartState(v)
  {
    hide GoodHart;
    var e := m.timer[0];
    assert m.timer == [e] && [e][..0] == [];
    assert Clints.AfterAll(Clints.INITIAL, [e]) == Clints.State(0, cmp);
    assert Clints.EmittedAll(Clints.INITIAL, [e]) == [Down(MachineTimer)];
    var none: seq<Moment> := [];
    assert none + [m] == [m];
    assert [Down(MachineTimer)][..0] == [];
    OneMore(v, none, m);
  }

  /** A constant is loaded into register 5. */
  lemma ConstantLoaded(v: Vectors, run: seq<Moment>, value: u32, i: Instruction)
    requires Aligned(v.reset) && Aligned(v.nmi) && Timed(v, run)
    requires i == RegImm(5, 0, (w: u32) => value)
    requires HartAfter(v, run).interrupts == InterruptRegisters.RESET && Timer(run).mtime + 1 < Timer(run).mtimecmp
    ensures Timed(v, run + [Ticking(i)]) && Timer(run + [Ticking(i)]) == Timer(run).(mtime := Timer(run).mtime + 1)
    ensures var h, g := HartAfter(v, run), HartAfter(v, run + [Ticking(i)]);
      |h.x| == 32 && g == h.(x := h.x[5 := value], pc := g.pc)
  {
    hide GoodHart, Happen, Run, Timed, Timer, HartEvents;
    LengthOfGood(HartAfter(v, run));
    QuietStep(v, run, i, [Clints.Ticked]);
  }

  /** Machine mode writes satp. */
  lemma SatpIsSet(v: Vectors, satp: u32, cmp: Clints.u64)
    requires Aligned(v.reset) && Aligned(v.nmi) && cmp > 4
    ensures var run, h := IntoSupervisor(satp, cmp)[..3], HartAfter(v, IntoSupervisor(satp, cmp)[..3]);
      && Timed(v, run) && Timer(run) == Clints.State(2, cmp)
      && h == StartState(v).(x := h.x, pc := h.pc, trap := StartState(v).trap.(satp := SatpFrom(satp)))
  {
    hide GoodHart, Happen, Run, BitsOf, Timed, Timer, HartEvents, MergeWord, SatpFrom;
    var run := IntoSupervisor(satp, cmp);
    assert run[..1] == [run[0]] && run[..2] == run[..1] + [run[1]] && run[..3] == run[..2] + [run[2]];
    TimerIsSet(v, run[0], cmp);
    var h1 := HartAfter(v, run[..1]);
    ConstantLoaded(v, run[..1], satp, RegImm(5, 0, (w: u32) => satp));
    var h2 := HartAfter(v, run[..2]);
    WholeWrite(ReadSatp(h2.trap.satp), satp);
    QuietStep(v, run[..2], CsrReg(ReadWrite, 0, CsrSatp, 5), [Clints.Ticked]);
  }

  lemma SupervisorIsReached(v: Vectors, satp: u32, cmp: Clints.u64)
    requires Aligned(v.reset) && Aligned(v.nmi) && cmp > 4
    ensures var run, h := IntoSupervisor(satp, cmp), HartAfter(v, IntoSupervisor(satp, cmp));
      && Timed(v, run) && Timer(run) == Clints.State(4, cmp)
      && h.privilege.Supervisor? && h.interrupts == InterruptRegisters.RESET && h.envcfg == NO_ENVCFG
      && h.trap.satp == SatpFrom(satp)
  {
    hide GoodHart, Happen, Run, BitsOf, Execute, Timed, Timer, HartEvents, SatpFrom;
    SmallWords();
    var run := IntoSupervisor(satp, cmp);
    assert run[..4] == run[..3] + [run[3]] && run[..5] == run[..4] + [run[4]] && run == run[..5] + [run[5]];
    SatpIsSet(v, satp, cmp);
    var h3 := HartAfter(v, run[..3]);
    ConstantLoaded(v, run[..3], 0x800, RegImm(5, 0, (w: u32) => 0x800));
    var h4 := HartAfter(v, run[..4]);
    MppIsWritten(h4);
    QuietStep(v, run[..4], CsrReg(ReadWrite, 0, CsrMstatus, 5), [Clints.Ticked]);
    var h5 := HartAfter(v, run[..5]);
    ReturnsToSupervisor(h5);
    QuietStep(v, run[..5], MretInstruction, []);
  }

  lemma MppIsWritten(h: Hart)
    requires GoodHart(h) && h.privilege.Machine? && h.status == Statuses.RESET && BitsOf(0x800) == {11}
    requires |h.x| == 32 && h.x[5] == 0x800
    ensures var done := Execute(h, CsrReg(ReadWrite, 0, CsrMstatus, 5));
      && done.exception.None? && done.hart == h.(status := done.hart.status, pc := done.hart.pc)
      && done.hart.status.mpp.RawSupervisor?
  {
    hide GoodHart, BitsOf, WriteMstatus;
    MppIsSet(h);
  }

  lemma ReturnsToSupervisor(h: Hart)
    requires GoodHart(h) && h.privilege.Machine? && h.status.mpp.RawSupervisor?
    ensures var done := Execute(h, MretInstruction);
      && done.exception.None? && done.hart.privilege.Supervisor? && done.hart.interrupts == h.interrupts
      && done.hart.envcfg == h.envcfg && done.hart.trap == h.trap
  {
    StatusOf(h);
    hide GoodHart;
  }

  lemma MppIsSet(h: Hart)
    requires GoodHart(h) && h.status.mpp.RawUser?
    ensures WriteMstatus(h.status, {11}, ALL).mpp.RawSupervisor?
  {
  }

  // ---------- The timer ----------

  /** Where the bus finds the timer. */
  const TIMER_BASE: u32 := 0x200_0000

  lemma TimerIsMapped()
    ensures (AddressMaps.Bounds(TIMER_BASE, TIMER_BASE + 0xFFFF), Boards.Clint) in Boards.BoardMap()
  {
    assert Boards.BoardMap()[2] == (AddressMaps.Bounds(TIMER_BASE, TIMER_BASE + 0xFFFF), Boards.Clint);
  }

  /** mtime reaches mtimecmp as supervisor mode is entered. */
  function TimerReached(): seq<Moment> {
    IntoSupervisor(0, 5) + [Moment(LineChanged(Up(MachineTimer)), [], [Clints.Ticked])]
  }

  /** Storing half of mtime in supervisor mode lowers the timer interrupt of machine mode. */
  lemma StoreLowersTimer(v: Vectors, value: u32)
    requires Aligned(v.reset) && Aligned(v.nmi)
    ensures var run := TimerReached();
      var h, s := HartAfter(v, run), Timer(run);
      var at, stored := TIMER_BASE + Clints.MTIME_LO, Clints.After(s, Clints.WordWrite(Clints.MTIME_LO, value));
      var i := Store(0, 0, at, (a: u32, w: u32) => Answer(None, if a == at then Clints.Emitted(s, stored) else []));
      && Timed(v, run) && s == Clints.State(5, 5) && stored == Clints.State(0, 5)
      && (AddressMaps.Bounds(TIMER_BASE, TIMER_BASE + 0xFFFF), Boards.Clint) in Boards.BoardMap()
      && h.privilege.Supervisor? && !h.trap.satp.sv32 && Bit(h.interrupts.mip, MachineTimer)
      && Execute(h, i).exception.None? && !Bit(Execute(h, i).hart.interrupts.mip, MachineTimer)
      && !MachineStateKept(h, Execute(h, i).hart)
  {
    hide GoodHart, Run, MachineStateKept, Execute, Drive, Timed, Timer, HartEvents, Clints.SetLower, IntoSupervisor;
    TimerIsReached(v);
    TimerIsMapped();
    var run := TimerReached();
    var h, s := HartAfter(v, run), Timer(run);
    Clints.WordWriteClears(5, value);
    var at, stored := TIMER_BASE + Clints.MTIME_LO, Clints.After(s, Clints.WordWrite(Clints.MTIME_LO, value));
    var i := Store(0, 0, at, (a: u32, w: u32) => Answer(None, if a == at then Clints.Emitted(s, stored) else []));
    ConfinedBelowMachine(h, i);
    LengthOfGood(h);
    ZeroRegister(h);
    StoreDone(h, i);
    assert AccessLines(h, i) == [Down(MachineTimer)];
    assert LevelAfter([Down(MachineTimer)], MachineTimer, true) != Level(h.interrupts, MachineTimer);
    ExecuteSetsLevels(h, i, MachineTimer);
  }

  lemma TimerIsReached(v: Vectors)
    requires Aligned(v.reset) && Aligned(v.nmi)
    ensures var run, h := TimerReached(), HartAfter(v, TimerReached());
      && Timed(v, run) && Timer(run) == Clints.State(5, 5)
      && h.privilege.Supervisor? && h.interrupts == InterruptRegisters.RESET.(mip := {7}) && !h.trap.satp.sv32
  {
    hide GoodHart, Run, Timed, Timer, HartEvents, IntoSupervisor;
    SupervisorIsReached(v, 0, 5);
    var run, m := IntoSupervisor(0, 5), Moment(LineChanged(Up(MachineTimer)), [], [Clints.Ticked]);
    LengthOfGood(HartAfter(v, run));
    assert [Clints.Ticked][..0] == [];
    assert [Up(MachineTimer)][..0] == [];
    assert Clints.AfterAll(Timer(run), m.timer) == Clints.State(5, 5);
    assert Clints.EmittedAll(Timer(run), m.timer) == [Up(MachineTimer)];
    OneMore(v, run, m);
  }

  lemma ZeroRegister(h: Hart)
    requires GoodHart(h)
    ensures |h.x| == 32 && h.x[0] == 0
  {
  }

  lemma StoreDone(h: Hart, i: Instruction)
    requires GoodHart(h) && i.Store? && i.write(WrappingAdd(h.x[i.base], i.offset), h.x[i.src]).result.None?
    ensures Execute(h, i).exception.None?
  {
    hide Drive;
  }

  /** A page table at the registers of the timer, whose first entry is the lower half of mtimecmp. */
  const TIMER_AS_TABLE: u32 := 0x8000_2004

  /** The registers of the timer, as the walk over a page table reads them. */
  function TimerWords(s: Clints.State): Mmus.Words {
    map[TIMER_BASE + Clints.MTIMECMP_LO := Clints.Low(s.mtimecmp),
      TIMER_BASE + Clints.MTIMECMP_HI := Clints.High(s.mtimecmp),
        TIMER_BASE + Clints.MTIME_LO := Clints.Low(s.mtime), TIMER_BASE + Clints.MTIME_HI := Clints.High(s.mtime)]
  }

  /** A load in supervisor mode whose translation sets the accessed bit in mtimecmp, which clears it, and
      then finds nothing at the physical address: it fails, and has raised the timer interrupt. */
  lemma FailedLoadHasRaised(v: Vectors)
    requires Aligned(v.reset) && Aligned(v.nmi)
    ensures var run := IntoSupervisor(TIMER_AS_TABLE, 0x1_0000_0003);
      var h, s := HartAfter(v, run), Timer(run);
      var at, accessed := TIMER_BASE + Clints.MTIMECMP_LO, Clints.After(s, Clints.WordWrite(Clints.MTIMECMP_LO, 0x43));
      var i := Load(5, 0, 0, (a: u32) => Answer(ReadError(AccessFault), Clints.Emitted(s, accessed)));
      && Timed(v, run) && h.privilege.Supervisor? && h.trap.satp == Satp(true, 0, 0x2004)
      && Mmus.Translation(TimerWords(s), {}, Mmus.Config(true, 0x2004, h.status.mxr, h.status.sum), 0, Mmus.Read,
        h.privilege)
           == (Mmus.Ok(0), TimerWords(s)[at := 0x43])
      && (forall e :: e in Boards.BoardMap() ==> !AddressMaps.Contains(e.0, 0))
      && Execute(h, i).exception == Some(LoadAccessFault(0))
      && !Bit(h.interrupts.mip, MachineTimer) && Bit(Execute(h, i).hart.interrupts.mip, MachineTimer)
  {
    hide GoodHart, Run, Execute, Drive, Timed, Timer, HartEvents, Clints.SetLower, IntoSupervisor, Mmus.Translation,
         Clints.High,
         Clints.Low;
    SupervisorIsReached(v, TIMER_AS_TABLE, 0x1_0000_0003);
    var run := IntoSupervisor(TIMER_AS_TABLE, 0x1_0000_0003);
    var h, s := HartAfter(v, run), Timer(run);
    Clints.WordWriteClears(0x1_0000_0003, 0x43);
    TimerWalked(s, Mmus.Config(true, 0x2004, h.status.mxr, h.status.sum));
    var accessed := Clints.After(s, Clints.WordWrite(Clints.MTIMECMP_LO, 0x43));
    var i := Load(5, 0, 0, (a: u32) => Answer(ReadError(AccessFault), Clints.Emitted(s, accessed)));
    assert Clints.Emitted(s, accessed) == [Up(MachineTimer)];
    LengthOfGood(h);
    ZeroRegister(h);
    LoadFails(h, i);
    assert AccessLines(h, i) == [Up(MachineTimer)];
    ExecuteSetsLevels(h, i, MachineTimer);
    assert [Up(MachineTimer)][..0] == [];
  }

  lemma TimerWalked(s: Clints.State, c: Mmus.Config)
    requires s == Clints.State(4, 0x1_0000_0003) && c.sv32 && c.rootPpn == 0x2004
    ensures Mmus.Translation(TimerWords(s), {}, c, 0, Mmus.Read, Supervisor)
      == (Mmus.Ok(0), TimerWords(s)[TIMER_BASE + Clints.MTIMECMP_LO := 0x43])
  {
    var words, at := TimerWords(s), TIMER_BASE + Clints.MTIMECMP_LO;
    assert words[at] == 3;
    var entry := Mmus.Decode(3);
    assert entry == Mmus.Pte(true, true, false, false, false, false, false, false, 0, 0);
    assert Mmus.PageAddress(c.rootPpn) == at && Mmus.EntryAddress(at, 0, 1) == at;
    assert Mmus.Walk(words, at, 0, 1) == Mmus.Leaf(at, 1);
    assert Mmus.Encode(entry.Updated(Mmus.Read)) == 0x43;
    assert Mmus.Mapped(entry, 0, 1) == 0;
  }

  lemma LoadFails(h: Hart, i: Instruction)
    requires GoodHart(h) && i.Load? && i.read(WrappingAdd(h.x[i.base], i.offset)).result == ReadError(AccessFault)
    ensures Execute(h, i).exception == Some(LoadAccessFault(WrappingAdd(h.x[i.base], i.offset)))
  {
    hide Drive;
  }

  // ---------- Register writes of supervisor mode ----------

  /** Writing senvcfg in supervisor mode changes menvcfg. */
  lemma SenvcfgChangesMenvcfg(v: Vectors)
    requires Aligned(v.reset) && Aligned(v.nmi)
    ensures var h, i := HartAfter(v, IntoSupervisor(0, 5)), WriteImmediate(CsrSenvcfg, 1);
      && h.privilege.Supervisor? && Execute(h, i).exception.None?
      && h.envcfg.menvcfg == {} && Execute(h, i).hart.envcfg.menvcfg == {0} && !MachineStateKept(h, Execute(h, i).hart)
  {
    hide GoodHart, Run, BitsOf, MachineStateKept, Execute, AltersMenvcfg, Timed, Timer, HartEvents, IntoSupervisor;
    SmallWords();
    SupervisorIsReached(v, 0, 5);
    var h, i := HartAfter(v, IntoSupervisor(0, 5)), WriteImmediate(CsrSenvcfg, 1);
    ConfinedBelowMachine(h, i);
    SenvcfgWritten(h);
  }

  lemma SenvcfgWritten(h: Hart)
    requires GoodHart(h) && h.privilege.Supervisor? && h.envcfg == NO_ENVCFG && BitsOf(1) == {0}
    ensures
      && Execute(h, WriteImmediate(CsrSenvcfg, 1)).exception.None?
      && Execute(h, WriteImmediate(CsrSenvcfg, 1)).hart.envcfg.menvcfg == {0}
    ensures
      && AccessOf(h, WriteImmediate(CsrSenvcfg, 1)).Some?
      && AltersMenvcfg(h, AccessOf(h, WriteImmediate(CsrSenvcfg, 1)).value)
  {
    hide BitsOf, Statuses.Good, TrapRegisters.Good, InterruptRegisters.Good, WriteStatusCsr, WriteTrapCsr,
         WriteInterruptCsr, IsWord;
  }

  /** Writing sip in supervisor mode sets the supervisor software interrupt, which is not delegated. */
  lemma SipReachesUndelegated(v: Vectors)
    requires Aligned(v.reset) && Aligned(v.nmi)
    ensures var h, i := HartAfter(v, IntoSupervisor(0, 5)), WriteImmediate(CsrSip, 2);
      && h.privilege.Supervisor? && Execute(h, i).exception.None? && !Bit(h.interrupts.delegate, SupervisorSoftware)
      && !Bit(h.interrupts.mip, SupervisorSoftware) && Bit(Execute(h, i).hart.interrupts.mip, SupervisorSoftware)
  {
    hide GoodHart, Run, BitsOf, Execute, Timed, Timer, HartEvents, IntoSupervisor;
    SmallWords();
    SupervisorIsReached(v, 0, 5);
    SipWritten(HartAfter(v, IntoSupervisor(0, 5)));
  }

  lemma SipWritten(h: Hart)
    requires GoodHart(h) && h.privilege.Supervisor? && BitsOf(2) == {1}
    ensures var done := Execute(h, WriteImmediate(CsrSip, 2));
      done.exception.None? && Bit(done.hart.interrupts.mip, SupervisorSoftware)
  {
    hide BitsOf, Statuses.Good, TrapRegisters.Good, InterruptRegisters.Good, WriteStatusCsr, WriteTrapCsr,
         WriteEnvcfgCsr, IsWord;
  }
}
