/** What the hart keeps in every run: its invariant, the nesting of traps, the confinement of code
    below machine mode, and when interrupts are taken. */
module HartProperties {
  import opened Integers
  import opened Options
  import opened Privileges
  import opened Words
  import opened Statuses
  import opened InterruptRegisters
  import opened TrapRegisters
  import opened Harts

  // ---------- The invariant ----------

  lemma HandlerIsAligned(base: u32, mode: VectorMode, cause: Cause)
    requires Aligned(base)
    ensures Aligned(HandlerAddress(base, mode, cause))
  {
  }

  /** Which entry of a vector table a cause selects. */
  function HandlerOffset(mode: VectorMode, cause: Cause): nat {
    if mode.Vectored? && cause.ByInterrupt? && cause.interrupt.Some? then 4 * Code(cause.interrupt.value) else 0
  }

  /** The handler lies at its place in the vector table exactly when that is inside the address space. */
  lemma HandlerIsInTable(base: u32, mode: VectorMode, cause: Cause)
    ensures HandlerAddress(base, mode, cause) == base + HandlerOffset(mode, cause) <==>
      base + HandlerOffset(mode, cause) < 0x1_0000_0000
  {
  }

  lemma TrapKeeps(h: Hart, cause: Cause)
    requires GoodHart(h)
    ensures GoodHart(TakeTrap(h, cause))
  {
    hide Aligned, HandlerAddress, TrapValue, Statuses.Good, TrapRegisters.Good, InterruptRegisters.Good,
         EnterSupervisor, EnterMachine, SaveSupervisor, SaveMachine,
         ShouldDelegate;
    VectorsAligned(h.trap);
    HandlerIsAligned(h.trap.sBase, h.trap.sMode, cause);
    HandlerIsAligned(h.trap.mBase, h.trap.mMode, cause);
    TrapsKeepStatus(h.status, h.privilege);
    SavingKeeps(h.trap, cause, h.pc);
  }

  lemma VectorsAligned(t: Trap)
    requires TrapRegisters.Good(t)
    ensures Aligned(t.mBase) && Aligned(t.sBase) && Aligned(t.mepc) && Aligned(t.sepc)
  {
  }

  lemma SavingKeeps(t: Trap, cause: Cause, pc: u32)
    requires TrapRegisters.Good(t) && Aligned(pc)
    ensures TrapRegisters.Good(SaveSupervisor(t, cause, pc)) && TrapRegisters.Good(SaveMachine(t, cause, pc))
  {
  }

  lemma WriteTrapCsrKeeps(t: Trap, csr: Csr, value: Bits, mask: Bits)
    requires TrapRegisters.Good(t)
    ensures TrapRegisters.Good(WriteTrapCsr(t, csr, value, mask))
  {
    hide MergeWord, MergeAligned, WriteTvec, WriteCause, Aligned;
    MergeAlignedIsAligned(t.sepc, value, mask);
    MergeAlignedIsAligned(t.mepc, value, mask);
    WriteTvecIsAligned(t.sBase, t.sMode, value, mask);
    WriteTvecIsAligned(t.mBase, t.mMode, value, mask);
  }

  lemma WriteCsrKeeps(h: Hart, csr: Csr, value: Bits, mask: Bits)
    requires GoodHart(h) && WriteCsr(h, csr, value, mask).Some?
    ensures GoodHart(WriteCsr(h, csr, value, mask).value)
  {
    hide Statuses.Good, TrapRegisters.Good, InterruptRegisters.Good, WriteTrapCsr, WriteMstatus, WriteSstatus,
         WriteMstatush, WriteSie, WriteSip,
         WriteMideleg, WriteMie, WriteMip, Aligned, IsWord, WriteEnvcfgCsr;
    WriteTrapCsrKeeps(h.trap, csr, value, mask);
    WritesKeepStatus(h.status, value, mask);
    RegisterWritesKeep(h.interrupts, value, mask);
    EnvcfgStaysAWord(h.envcfg, csr, value, mask);
  }

  lemma EnvcfgStaysAWord(e: Envcfg, csr: Csr, value: Bits, mask: Bits)
    requires IsWord(e.menvcfg) && IsWord(e.menvcfgh)
    ensures var f := WriteEnvcfgCsr(e, csr, value, mask); IsWord(f.menvcfg) && IsWord(f.menvcfgh)
  {
  }

  lemma ReturnsKeep(h: Hart)
    requires GoodHart(h)
    ensures GoodHart(Sret(h).hart) && GoodHart(Mret(h).hart)
  {
  }

  lemma NextKeeps(h: Hart)
    requires GoodHart(h)
    ensures GoodHart(Next(h).hart)
  {
  }

  lemma ResultKeeps(h: Hart, dest: Specifier, value: u32)
    requires GoodHart(h)
    ensures GoodHart(Result(h, dest, value).hart) && GoodHart(h.(x := SetX(h.x, dest, value)))
  {
  }

  lemma ExecuteCsrKeeps(h: Hart, op: CsrOp, dest: Specifier, csr: Csr, src: Option<u32>)
    requires GoodHart(h)
    ensures GoodHart(ExecuteCsr(h, op, dest, csr, src).hart)
  {
    hide GoodHart, Statuses.Good, TrapRegisters.Good, InterruptRegisters.Good, ReadCsr, WriteCsr, BitsOf, Next;
    var reading := op != ReadWrite || dest != 0;
    LengthOfGood(h);
    if !(reading && ReadCsr(h, csr).None?) {
      var g := if reading then h.(x := SetX(h.x, dest, ReadCsr(h, csr).value)) else h;
      if reading {
        ResultKeeps(h, dest, ReadCsr(h, csr).value);
      }
      NextKeeps(g);
      if src.Some? {
        var value := match op case ReadWrite => BitsOf(src.value) case ReadSet => ALL case ReadClear => {};
        var mask := if op == ReadWrite then ALL else BitsOf(src.value);
        if WriteCsr(g, csr, value, mask).Some? {
          WriteCsrKeeps(g, csr, value, mask);
          NextKeeps(WriteCsr(g, csr, value, mask).value);
        }
      }
    }
  }

  lemma JumpKeeps(h: Hart, dest: Specifier, target: u32)
    requires GoodHart(h)
    ensures GoodHart(Jump(h, dest, target).hart) && GoodHart(BranchTo(h, target).hart)
  {
  }

  lemma LengthOfGood(h: Hart)
    requires GoodHart(h)
    ensures |h.x| == 32
  {
  }

  /** A memory access changes nothing but the program counter, the destination and what devices drive. */
  lemma MemoryEffect(h: Hart, i: Instruction)
    requires GoodHart(h) && IsMemory(i)
    ensures var g := ExecuteMemory(h, i).hart;
      && |g.x| == 32 && g.x[0] == 0 && (g.pc == h.pc || g.pc == WrappingAdd(h.pc, 4))
      && g == h.(x := g.x, pc := g.pc, interrupts := Drive(h.interrupts, AccessLines(h, i)))
  {
    hide Aligned, Statuses.Good, TrapRegisters.Good, InterruptRegisters.Good, Drive, IsWord, WrappingAdd;
    if i.Amo? && Aligned(h.x[i.addr]) {
      assert i.read(h.x[i.addr]).lines + [] == i.read(h.x[i.addr]).lines;
    }
    if i.Amo? && Aligned(h.x[i.addr]) && i.read(h.x[i.addr]).result.Value? {
      var answer := i.read(h.x[i.addr]);
      DriveMore(h.interrupts, answer.lines, i.write(h.x[i.addr], i.op2(answer.result.value, h.x[i.src])).lines);
    }
    assert Drive(h.interrupts, []) == h.interrupts by { DriveNothing(h.interrupts); }
  }

  lemma DriveNothing(s: Interrupts)
    ensures Drive(s, []) == s
  {
  }

  lemma MemoryKeeps(h: Hart, i: Instruction)
    requires GoodHart(h) && IsMemory(i)
    ensures GoodHart(ExecuteMemory(h, i).hart)
  {
    hide ExecuteMemory, AccessLines, Statuses.Good, TrapRegisters.Good, InterruptRegisters.Good, Drive, IsWord;
    MemoryEffect(h, i);
    DriveKeeps(h.interrupts, AccessLines(h, i));
  }

  lemma ExecuteKeeps(h: Hart, i: Instruction)
    requires GoodHart(h)
    ensures GoodHart(Execute(h, i).hart)
  {
    hide GoodHart, Statuses.Good, TrapRegisters.Good, InterruptRegisters.Good, Next, Result, Jump, BranchTo, Sret,
         Mret, ExecuteCsr, ExecuteMemory;
    LengthOfGood(h);
    NextKeeps(h);
    ReturnsKeep(h);
    if IsMemory(i) {
      MemoryKeeps(h, i);
    }
    match i
    case RegImm(dest, src, op) => ResultKeeps(h, dest, op(h.x[src]));
    case RegReg(dest, src1, src2, op) => ResultKeeps(h, dest, op(h.x[src1], h.x[src2]));
    case Lui(dest, immediate) => ResultKeeps(h, dest, immediate);
    case Auipc(dest, immediate) => ResultKeeps(h, dest, WrappingAdd(h.pc, immediate));
    case Jal(dest, offset) => JumpKeeps(h, dest, WrappingAdd(h.pc, offset));
    case Jalr(dest, base, offset) =>
      var t := WrappingAdd(h.x[base], offset);
      JumpKeeps(h, dest, t - t % 2);
    case Branch(_, _, offset, _) => JumpKeeps(h, 0, WrappingAdd(h.pc, offset));
    case CsrReg(op, dest, csr, src) =>
      ExecuteCsrKeeps(h, op, dest, csr, if op == ReadWrite || src != 0 then Some(h.x[src]) else None);
    case CsrImm(op, dest, csr, immediate) =>
      ExecuteCsrKeeps(h, op, dest, csr, if op == ReadWrite || immediate != 0 then Some(immediate) else None);
    case _ =>
  }

  lemma InterruptCheckKeeps(h: Hart)
    requires GoodHart(h)
    ensures GoodHart(CheckForInterrupts(h))
  {
    hide GoodHart, TakeTrap, HighestReady;
    if HighestReady(h).Some? {
      TrapKeeps(h, ByInterrupt(HighestReady(h)));
    }
  }

  lemma DrivenKeeps(h: Hart, lines: seq<LineChange>)
    requires GoodHart(h)
    ensures GoodHart(Driven(h, lines))
  {
    hide Drive;
    DriveKeeps(h.interrupts, lines);
  }

  lemma StepWithKeeps(h: Hart, fetched: Fetched)
    requires GoodHart(h)
    ensures GoodHart(StepWith(h, fetched))
  {
    hide GoodHart, TakeTrap, Execute;
    if fetched.Decoded? {
      ExecuteKeeps(h, fetched.instruction);
    }
    var done := match fetched case Decoded(i) => Execute(h, i) case Failed(e) => Executed(h, Some(e));
    if done.exception.Some? {
      TrapKeeps(done.hart, ByException(done.exception));
    }
  }

  lemma StepKeeps(h: Hart, fetch: u32 -> Answer<Fetched>)
    requires GoodHart(h)
    ensures GoodHart(Step(h, fetch))
  {
    hide GoodHart, StepWith, HighestReady, CheckForInterrupts, Driven;
    InterruptCheckKeeps(h);
    var answer := fetch(h.pc);
    DrivenKeeps(h, answer.lines);
    StepWithKeeps(Driven(h, answer.lines), answer.result);
    InterruptCheckKeeps(StepWith(Driven(h, answer.lines), answer.result));
  }

  /** Everything that can happen to a hart. */
  datatype Event =
    | Stepped(fetch: u32 -> Answer<Fetched>)
    | LineChanged(change: LineChange)
    | NonMaskableInterrupt
    | ResetSignal

  datatype Vectors = Vectors(reset: u32, nmi: u32)

  function StartState(v: Vectors): Hart {
    Hart(seq(32, _ => 0), v.reset, Machine, Statuses.RESET, TrapRegisters.RESET, InterruptRegisters.RESET, NO_ENVCFG)
  }

  function Happen(h: Hart, v: Vectors, e: Event): Hart
    requires GoodHart(h)
  {
    match e
    case Stepped(fetch) => Step(h, fetch)
    case LineChanged(change) => h.(interrupts := InterruptRegisters.Apply(h.interrupts, change))
    case NonMaskableInterrupt => Nmi(h, v.nmi)
    case ResetSignal => Reset(h, v.reset)
  }

  lemma EventKeeps(h: Hart, v: Vectors, e: Event)
    requires GoodHart(h) && Aligned(v.reset) && Aligned(v.nmi)
    ensures GoodHart(Happen(h, v, e))
  {
    match e
    case Stepped(fetch) => StepKeeps(h, fetch);
    case LineChanged(change) => LinesKeep(h.interrupts, change.line);
    case NonMaskableInterrupt =>
    case ResetSignal =>
  }

  /** The state after a run. The invariant holds in every reachable state, which is what makes each
      of its steps defined: the unwraps and asserts of the code cannot fail. */
  function Run(v: Vectors, events: seq<Event>): (h: Hart)
    requires Aligned(v.reset) && Aligned(v.nmi)
    ensures GoodHart(h)
  {
    if events == [] then
      InitialIsGood(v);
      StartState(v)
    else
      var n := |events| - 1;
      EventKeeps(Run(v, events[..n]), v, events[n]);
      Happen(Run(v, events[..n]), v, events[n])
  }

  /** Runs start at the reset vector in machine mode with interrupts disabled, and go on event by event. */
  lemma RunUnfolds(v: Vectors, events: seq<Event>, e: Event)
    requires Aligned(v.reset) && Aligned(v.nmi)
    ensures Run(v, events + [e]) == Happen(Run(v, events), v, e)
    ensures var h := Run(v, []);
      && h.pc == v.reset && h.privilege.Machine? && (forall r :: 0 <= r < 32 ==> h.x[r] == 0)
      && !h.status.mie && !h.status.sie && !h.status.mprv
      && h.interrupts == Interrupts({}, false, false, {}, {}) && h.envcfg == Envcfg({}, {}, {})
      && h.trap.medeleg == {} && !h.trap.satp.sv32
  {
    hide Happen;
    assert (events + [e])[..|events|] == events;
  }

  lemma InitialIsGood(v: Vectors)
    requires Aligned(v.reset)
    ensures GoodHart(StartState(v))
  {
  }

  // ---------- Traps and returns ----------

  /** A trap never lowers the privilege level, and disables interrupts at the level it enters. */
  lemma TrapNeverLowersPrivilege(h: Hart, cause: Cause)
    ensures var t := TakeTrap(h, cause);
      && Rank(h.privilege) <= Rank(t.privilege)
      && (t.privilege.Machine? ==> !t.status.mie && t.trap.mepc == h.pc)
      && (t.privilege.Supervisor? ==> !t.status.sie && t.trap.sepc == h.pc)
      && t.x == h.x && t.interrupts == h.interrupts
  {
  }

  predicate SameContext(a: Hart, b: Hart) {
    a.pc == b.pc && a.privilege == b.privilege && a.status.mie == b.status.mie && a.status.sie == b.status.sie
  }

  /** The trap of `h` is taken in supervisor mode; while its handler is at `inner`, a second trap is
      taken in machine mode, whose handler returns from `returning`; the first handler then returns
      from `last`. The handlers do what they like as long as they keep what was saved. */
  lemma TrapsNest(h: Hart, cause: Cause, inner: Hart, second: Cause, returning: Hart, last: Hart)
    requires GoodHart(h) && GoodHart(inner) && GoodHart(returning) && GoodHart(last)
    requires ToSupervisor(h, cause) && !h.status.tsr
    requires SavedSupervisor(inner, TakeTrap(h, cause)) && !ToSupervisor(inner, second)
    requires SavedMachine(returning, TakeTrap(inner, second))
    requires SavedSupervisor(last, Mret(returning).hart)
    ensures TakeTrap(h, cause).privilege.Supervisor? && TakeTrap(inner, second).privilege.Machine?
    ensures Mret(returning).exception.None? && SameContext(Mret(returning).hart, inner)
    ensures Sret(last).exception.None? && SameContext(Sret(last).hart, h)
  {
  }

  /** A supervisor handler kept what the trap saved. */
  predicate SavedSupervisor(now: Hart, before: Hart) {
    && now.privilege == before.privilege && now.trap.sepc == before.trap.sepc && now.status.spie == before.status.spie
    && now.status.spp == before.status.spp
    && now.status.mie == before.status.mie && !now.status.tsr
  }

  /** A machine handler kept what the trap saved, and also what an interrupted handler relies on. */
  predicate SavedMachine(now: Hart, before: Hart) {
    && now.privilege == before.privilege && now.trap.mepc == before.trap.mepc && now.status.mpie == before.status.mpie
    && now.status.mpp == before.status.mpp
    && now.trap.sepc == before.trap.sepc && now.status.spie == before.status.spie && now.status.spp == before.status.spp
    && now.status.sie == before.status.sie
    && !now.status.tsr
  }

  /** The instruction is no return from a trap and writes none of the registers that hold what a trap
      saved; it may read them. */
  predicate LeavesSaved(h: Hart, i: Instruction)
    requires |h.x| == 32
  {
    && !i.SretInstruction? && !i.MretInstruction?
    && (AccessOf(h, i).Some? && AccessOf(h, i).value.src.Some? ==>
          !AccessOf(h, i).value.csr.CsrSepc? && !AccessOf(h, i).value.csr.CsrMepc?
          && !AccessOf(h, i).value.csr.CsrSstatus? && !AccessOf(h, i).value.csr.CsrMstatus?)
  }

  /** What a handler has made of the hart, if none of its instructions raised an exception. */
  function Handled(h: Hart, instructions: seq<Instruction>): (r: Option<Hart>)
    requires GoodHart(h)
    ensures r.Some? ==> GoodHart(r.value)
  {
    if instructions == [] then Some(h)
    else
      var n := |instructions| - 1;
      match Handled(h, instructions[..n])
      case None => None
      case Some(g) =>
        ExecuteKeeps(g, instructions[n]);
        LengthOfGood(g);
        if LeavesSaved(g, instructions[n]) && Execute(g, instructions[n]).exception.None?
        then Some(Execute(g, instructions[n]).hart) else None
  }

  predicate SavedAll(now: Hart, before: Hart) {
    && now.privilege == before.privilege && now.trap.mepc == before.trap.mepc && now.trap.sepc == before.trap.sepc
    && SameSaved(now.status, before.status)
  }

  predicate SameSaved(s: Status, t: Status) {
    && s.sie == t.sie && s.spie == t.spie && s.spp == t.spp
    && s.mie == t.mie && s.mpie == t.mpie && s.mpp == t.mpp && s.tsr == t.tsr
  }

  /** Any instruction that is executed without exception keeps the saved registers, unless it is a return or
      accesses one of the four registers that hold them. */
  lemma InstructionsKeepSaved(h: Hart, i: Instruction)
    requires GoodHart(h) && Execute(h, i).exception.None? && !i.SretInstruction? && !i.MretInstruction?
    requires i.CsrReg? || i.CsrImm? ==> i.csr !in {CsrSepc, CsrMepc, CsrSstatus, CsrMstatus}
    ensures |h.x| == 32 && LeavesSaved(h, i)
    ensures var g := Execute(h, i).hart;
      && g.privilege == h.privilege && g.trap.mepc == h.trap.mepc && g.trap.sepc == h.trap.sepc
      && g.status.sie == h.status.sie && g.status.spie == h.status.spie && g.status.spp == h.status.spp
      && g.status.mie == h.status.mie && g.status.mpie == h.status.mpie && g.status.mpp == h.status.mpp
      && g.status.tsr == h.status.tsr
  {
    hide GoodHart, Execute;
    LengthOfGood(h);
    LeavingKeepsSaved(h, i);
  }

  lemma LeavingKeepsSaved(h: Hart, i: Instruction)
    requires GoodHart(h) && LeavesSaved(h, i) && Execute(h, i).exception.None?
    ensures SavedAll(Execute(h, i).hart, h)
  {
    hide Aligned, Statuses.Good, TrapRegisters.Good, InterruptRegisters.Good, IsWord, ExecuteCsr, ExecuteMemory;
    if IsMemory(i) {
      MemoryEffect(h, i);
    } else if AccessOf(h, i).Some? {
      AccessKeepsSaved(h, AccessOf(h, i).value);
    }
  }

  lemma AccessKeepsSaved(h: Hart, a: Access)
    requires GoodHart(h)
    requires a.src.Some? ==> !a.csr.CsrSepc? && !a.csr.CsrMepc? && !a.csr.CsrSstatus? && !a.csr.CsrMstatus?
    ensures SavedAll(ExecuteCsr(h, a.op, a.dest, a.csr, a.src).hart, h)
  {
    hide Aligned, Statuses.Good, TrapRegisters.Good, InterruptRegisters.Good, BitsOf, ReadCsr, WriteInterruptCsr,
         WriteEnvcfgCsr,
         IsWord, WriteStatusCsr, WriteTrapCsr, WriteFails, SameSaved;
    SameSavedRefl(h.status);
    if a.src.Some? {
      var value := match a.op case ReadWrite => BitsOf(a.src.value) case ReadSet => ALL case ReadClear => {};
      var mask := if a.op == ReadWrite then ALL else BitsOf(a.src.value);
      StatusWriteKeepsSaved(h.status, a.csr, value, mask);
      TrapWriteKeepsSaved(h.trap, a.csr, value, mask);
    }
  }

  lemma SameSavedRefl(s: Status)
    ensures SameSaved(s, s)
  {
  }

  lemma StatusWriteKeepsSaved(s: Status, csr: Csr, value: Bits, mask: Bits)
    requires !csr.CsrSstatus? && !csr.CsrMstatus?
    ensures SameSaved(WriteStatusCsr(s, csr, value, mask), s)
  {
    hide WriteSstatus, WriteMstatus, WriteMstatush, SameSaved;
    SameSavedRefl(s);
    MstatushKeepsSaved(s, value, mask);
  }

  lemma MstatushKeepsSaved(s: Status, value: Bits, mask: Bits)
    ensures SameSaved(WriteMstatush(s, value, mask), s)
  {
    hide NewBit;
  }

  lemma TrapWriteKeepsSaved(t: Trap, csr: Csr, value: Bits, mask: Bits)
    requires TrapRegisters.Good(t) && !csr.CsrSepc? && !csr.CsrMepc?
    ensures WriteTrapCsr(t, csr, value, mask).sepc == t.sepc && WriteTrapCsr(t, csr, value, mask).mepc == t.mepc
  {
    hide MergeWord, MergeAligned, WriteTvec, WriteCause, SatpFrom, ReadSatp, WriteMedeleg, Aligned;
  }

  /** A handler that leaves the saved registers alone keeps what the trap saved. */
  lemma {:induction false} HandlerKeepsSaved(h: Hart, instructions: seq<Instruction>)
    requires GoodHart(h) && Handled(h, instructions).Some?
    ensures SavedAll(Handled(h, instructions).value, h)
  {
    hide GoodHart, Execute, LeavesSaved;
    if instructions != [] {
      var n := |instructions| - 1;
      HandlerKeepsSaved(h, instructions[..n]);
      LeavingKeepsSaved(Handled(h, instructions[..n]).value, instructions[n]);
    }
  }

  /** So traps nest over any handlers that leave the saved registers alone: the supervisor handler runs
      `first`, a second trap enters machine mode, whose handler runs `second` and returns, and the first
      handler runs `third` and returns. */
  lemma HandlersNest(h: Hart, cause: Cause, first: seq<Instruction>, trap: Cause, second: seq<Instruction>,
                     third: seq<Instruction>)
    requires GoodHart(h) && ToSupervisor(h, cause) && !h.status.tsr
    requires GoodHart(TakeTrap(h, cause)) && Handled(TakeTrap(h, cause), first).Some?
    requires var inner := Handled(TakeTrap(h, cause), first).value;
      !ToSupervisor(inner, trap) && GoodHart(TakeTrap(inner, trap)) && Handled(TakeTrap(inner, trap), second).Some?
    requires var inner := Handled(TakeTrap(h, cause), first).value;
      var returning := Handled(TakeTrap(inner, trap), second).value;
      GoodHart(Mret(returning).hart) && Handled(Mret(returning).hart, third).Some?
    ensures var inner := Handled(TakeTrap(h, cause), first).value;
      var returning := Handled(TakeTrap(inner, trap), second).value;
      var (back, last) := (Mret(returning).hart, Sret(Handled(Mret(returning).hart, third).value).hart);
      && back.pc == inner.pc && back.privilege == inner.privilege
      && back.status.mie == inner.status.mie && back.status.sie == inner.status.sie
      && last.pc == h.pc && last.privilege == h.privilege
      && last.status.mie == h.status.mie && last.status.sie == h.status.sie
  {
    hide Aligned, TrapRegisters.Good, InterruptRegisters.Good, Statuses.Good, IsWord, Handled, HandlerAddress;
    var inner := Handled(TakeTrap(h, cause), first).value;
    HandlerKeepsSaved(TakeTrap(h, cause), first);
    var returning := Handled(TakeTrap(inner, trap), second).value;
    HandlerKeepsSaved(TakeTrap(inner, trap), second);
    var last := Handled(Mret(returning).hart, third).value;
    HandlerKeepsSaved(Mret(returning).hart, third);
    TrapsNest(h, cause, inner, trap, returning, last);
  }

  // ---------- When interrupts are taken ----------

  /** Section 3.1.9 of the privileged architecture: an interrupt traps to machine mode when it is pending,
      enabled and not delegated, and machine mode is either not running or has interrupts enabled. */
  predicate TrapsToMachine(h: Hart, i: Interrupt) {
    Pending(h.interrupts, i) && !Bit(h.interrupts.delegate, i) && (!h.privilege.Machine? || h.status.mie)
  }

  /** A delegated interrupt traps to supervisor mode from user mode, or from supervisor mode with interrupts enabled. */
  predicate TrapsToSupervisor(h: Hart, i: Interrupt) {
    Pending(h.interrupts, i) && Bit(h.interrupts.delegate, i)
      && (h.privilege.User? || (h.privilege.Supervisor? && h.status.sie))
  }

  predicate Prescribed(h: Hart, i: Interrupt) {
    TrapsToMachine(h, i) || TrapsToSupervisor(h, i)
  }

  /** No prescribed interrupt is missed. One that is taken is not prescribed exactly when the hart is in
      machine mode with interrupts enabled, some interrupt is pending, and all of those are delegated:
      they should wait. */
  lemma InterruptsAsPrescribed(h: Hart)
    requires GoodHart(h)
    ensures HighestReady(h).None? ==> forall i :: !Prescribed(h, i)
    ensures HighestReady(h).Some? && !Prescribed(h, HighestReady(h).value) <==>
      && h.privilege.Machine? && h.status.mie
      && (exists i :: Pending(h.interrupts, i)) && forall i :: Pending(h.interrupts, i) ==>
        Bit(h.interrupts.delegate, i)
  {
    hide Statuses.Good, TrapRegisters.Good, Aligned, FirstIn;
    ReadyIsFirst(h.interrupts);
  }

  /** Section 3.1.9 orders the interrupts that trap to the same mode. */
  function Place(i: Interrupt): nat {
    match i
    case MachineExternal => 0
    case MachineSoftware => 1
    case MachineTimer => 2
    case SupervisorExternal => 3
    case SupervisorSoftware => 4
    case SupervisorTimer => 5
  }

  /** Of several interrupts, one that traps to machine mode is taken before one that traps to supervisor
      mode, and among those of one mode the first in order is taken. */
  lemma TakenInOrder(h: Hart, j: Interrupt)
    requires GoodHart(h) && Prescribed(h, j)
    ensures HighestReady(h).Some?
    ensures var i := HighestReady(h).value;
      && (TrapsToMachine(h, j) ==> TrapsToMachine(h, i) && Place(i) <= Place(j))
      && (TrapsToSupervisor(h, j) && !TrapsToMachine(h, i) ==> Place(i) <= Place(j))
  {
    hide Statuses.Good, TrapRegisters.Good, Aligned, FirstIn;
    ReadyIsFirst(h.interrupts);
  }

  lemma ReadyIsFirst(s: Interrupts)
    requires InterruptRegisters.Good(s)
    ensures MachineReady(s).Some? <==> exists i :: Pending(s, i) && !Bit(s.delegate, i)
    ensures SupervisorReady(s).Some? <==> exists i :: Pending(s, i) && Bit(s.delegate, i)
    ensures MachineReady(s).Some? ==> var i := MachineReady(s).value;
      Pending(s, i) && !Bit(s.delegate, i) && forall j :: Pending(s, j) && !Bit(s.delegate, j) ==> Place(i) <= Place(j)
    ensures SupervisorReady(s).Some? ==> var i := SupervisorReady(s).value;
      Pending(s, i) && Bit(s.delegate, i) && forall j :: Pending(s, j) && Bit(s.delegate, j) ==> Place(i) <= Place(j)
  {
    hide FirstIn, ReadyFor, InterruptRegisters.Good;
    forall j ensures Bit(ReadyFor(s, false), j) <==> Pending(s, j) && !Bit(s.delegate, j) {
      BitsOfReady(s, j, false);
    }
    forall j ensures Bit(ReadyFor(s, true), j) <==> Pending(s, j) && Bit(s.delegate, j) {
      BitsOfReady(s, j, true);
    }
    DelegatedAreSupervisor(s);
    FirstInMachineOrder(ReadyFor(s, false));
    FirstInSupervisorOrder(ReadyFor(s, true));
  }

  lemma DelegatedAreSupervisor(s: Interrupts)
    requires InterruptRegisters.Good(s)
    ensures forall i :: Bit(s.delegate, i) ==> i in SUPERVISOR_ORDER
  {
  }

  lemma FirstInMachineOrder(w: Bits)
    ensures var r := FirstIn(w, MACHINE_ORDER);
      (r.None? ==> forall i :: !Bit(w, i))
        && (r.Some? ==> Bit(w, r.value) && forall i :: Bit(w, i) ==> Place(r.value) <= Place(i))
  {
    hide FirstIn, Bit;
    forall i ensures MACHINE_ORDER[Place(i)] == i && i in MACHINE_ORDER {
    }
    assert forall k :: 0 <= k < 6 ==> Place(MACHINE_ORDER[k]) == k;
  }

  lemma FirstInSupervisorOrder(w: Bits)
    ensures var r := FirstIn(w, SUPERVISOR_ORDER);
      && (r.None? ==> forall i :: i in SUPERVISOR_ORDER ==> !Bit(w, i))
      && (r.Some? ==> r.value in SUPERVISOR_ORDER && Bit(w, r.value))
      && (r.Some? ==> forall i :: i in SUPERVISOR_ORDER && Bit(w, i) ==> Place(r.value) <= Place(i))
  {
  }

  /** After a trap into supervisor mode, scause shows its cause exactly when that is also the code of
      the last trap into machine mode, which is where it is read from. */
  lemma ScauseAfterTrap(h: Hart, cause: Cause)
    requires GoodHart(h) && ToSupervisor(h, cause)
    ensures GoodHart(TakeTrap(h, cause))
    ensures ReadCsr(TakeTrap(h, cause), CsrScause) == Some(CodeWord(CodeOf(cause)) % 0x1_0000_0000) <==>
            CodeWord(CodeOf(h.trap.lastM)) % 0x1_0000_0000 == CodeWord(CodeOf(cause)) % 0x1_0000_0000
  {
  }

  // ---------- Code below machine mode ----------

  /** Everything that belongs to machine mode is as before. MPRV may have been cleared, and the
      supervisor software interrupt may be pending or not. */
  predicate MachineStateKept(h: Hart, g: Hart) {
    && TrapStateKept(h.trap, g.trap) && InterruptStateKept(h.interrupts, g.interrupts)
    && g.envcfg.menvcfg == h.envcfg.menvcfg && g.envcfg.menvcfgh == h.envcfg.menvcfgh
    && (g.status.mprv ==> h.status.mprv) && SameMachineFields(h.status.(mprv := g.status.mprv), g.status)
  }

  predicate TrapStateKept(t: Trap, u: Trap) {
    && u.mBase == t.mBase && u.mMode == t.mMode && u.mscratch == t.mscratch && u.mepc == t.mepc && u.lastM == t.lastM
    && u.mcauseOverride == t.mcauseOverride && u.medeleg == t.medeleg && u.mtval == t.mtval && u.mtval2 == t.mtval2
    && u.mtinst == t.mtinst
  }

  predicate InterruptStateKept(s: Interrupts, t: Interrupts) {
    && t.delegate == s.delegate && t.seipExternal == s.seipExternal && t.seipInternal == s.seipInternal
    && t.mie - s.delegate == s.mie - s.delegate
    && t.mip - {Code(SupervisorSoftware)} == s.mip - {Code(SupervisorSoftware)}
  }

  /** A write of senvcfg, which is dispatched to menvcfg, with a value that alters that register. */
  predicate AltersMenvcfg(h: Hart, a: Access) {
    && a.csr.CsrSenvcfg? && Rank(h.privilege) >= 1 && a.src.Some?
    && match a.op
       case ReadWrite => BitsOf(a.src.value) != h.envcfg.menvcfg
       case ReadSet => !(BitsOf(a.src.value) <= h.envcfg.menvcfg)
       case ReadClear => BitsOf(a.src.value) * h.envcfg.menvcfg != {}
  }

  /** An instruction that is executed below machine mode keeps all machine state exactly when it does
      not alter menvcfg through senvcfg and its memory accesses leave every interrupt line at the level
      it had. It never raises the privilege level: only a trap can do that. */
  lemma ConfinedBelowMachine(h: Hart, i: Instruction)
    requires GoodHart(h) && !h.privilege.Machine?
    ensures MachineStateKept(h, Execute(h, i).hart) <==>
      !(AccessOf(h, i).Some? && AltersMenvcfg(h, AccessOf(h, i).value)) && !LinesMove(h.interrupts, AccessLines(h, i))
    ensures Rank(Execute(h, i).hart.privilege) <= Rank(h.privilege)
  {
    hide Aligned, Statuses.Good, TrapRegisters.Good, InterruptRegisters.Good, TrapStateKept, InterruptStateKept,
         SameMachineFields, ExecuteCsr, Sret, ExecuteMemory,
         MachineStateKept, Next, Result, Jump, BranchTo, IsWord, AltersMenvcfg, LinesMove;
    StepsAreConfined(h);
    LinesOfNothing(h.interrupts);
    if IsMemory(i) {
      MemoryIsConfined(h, i);
    }
    match i
    case SretInstruction => SretIsConfined(h);
    case CsrReg(op, dest, csr, src) =>
      CsrIsConfined(h, op, dest, csr, if op == ReadWrite || src != 0 then Some(h.x[src]) else None);
    case CsrImm(op, dest, csr, immediate) =>
      CsrIsConfined(h, op, dest, csr, if op == ReadWrite || immediate != 0 then Some(immediate) else None);
    case _ =>
  }

  lemma LinesOfNothing(s: Interrupts)
    ensures !LinesMove(s, [])
  {
  }

  lemma MemoryIsConfined(h: Hart, i: Instruction)
    requires GoodHart(h) && IsMemory(i)
    ensures MachineStateKept(h, ExecuteMemory(h, i).hart) <==> !LinesMove(h.interrupts, AccessLines(h, i))
    ensures ExecuteMemory(h, i).hart.privilege == h.privilege
  {
    hide Aligned, Statuses.Good, TrapRegisters.Good, InterruptRegisters.Good, IsWord, LinesMove, Drive, ExecuteMemory,
         AccessLines;
    MemoryEffect(h, i);
    DriveIsQuiet(h.interrupts, AccessLines(h, i));
    DriveKeepsEnables(h.interrupts, AccessLines(h, i));
  }

  lemma DriveKeepsEnables(s: Interrupts, lines: seq<LineChange>)
    ensures var t := Drive(s, lines); t.delegate == s.delegate && t.mie == s.mie && t.seipInternal == s.seipInternal
    ensures var t := Drive(s, lines);
      InterruptStateKept(s, t) <==>
        t.(mip := t.mip - {Code(SupervisorSoftware)}) == s.(mip := s.mip - {Code(SupervisorSoftware)})
  {
  }

  lemma StepsAreConfined(h: Hart)
    requires |h.x| == 32
    ensures MachineStateKept(h, h) && MachineStateKept(h, Next(h).hart) && Next(h).hart.privilege == h.privilege
    ensures forall dest, v ::
      MachineStateKept(h, Result(h, dest, v).hart) && Result(h, dest, v).hart.privilege == h.privilege
    ensures forall dest, v ::
      MachineStateKept(h, Jump(h, dest, v).hart) && Jump(h, dest, v).hart.privilege == h.privilege
    ensures forall v :: MachineStateKept(h, BranchTo(h, v).hart) && BranchTo(h, v).hart.privilege == h.privilege
  {
  }

  lemma KeptRefl(h: Hart)
    ensures MachineStateKept(h, h)
  {
  }

  lemma SretIsConfined(h: Hart)
    ensures MachineStateKept(h, Sret(h).hart) && Rank(Sret(h).hart.privilege) <= Rank(h.privilege)
  {
    hide TrapStateKept, InterruptStateKept, SameMachineFields, LeaveSupervisor;
    KeptRefl(h);
    LeftIsConfined(h.status);
  }

  lemma LeftIsConfined(s: Status)
    ensures !LeaveSupervisor(s).mprv && SameMachineFields(s.(mprv := false), LeaveSupervisor(s))
  {
  }

  lemma CsrIsConfined(h: Hart, op: CsrOp, dest: Specifier, csr: Csr, src: Option<u32>)
    requires GoodHart(h) && !h.privilege.Machine?
    ensures var g := ExecuteCsr(h, op, dest, csr, src).hart;
      && (MachineStateKept(h, g) <==> !AltersMenvcfg(h, Access(op, dest, csr, src)))
      && g.privilege == h.privilege
  {
    hide Statuses.Good, TrapRegisters.Good, InterruptRegisters.Good, TrapStateKept, InterruptStateKept,
         SameMachineFields, ReadCsr, WriteCsr, BitsOf,
         IsWord, Aligned, AltersMenvcfg, MachineStateKept, WriteFails, GoodHart, WriteEnvcfgCsr;
    LengthOfGood(h);
    KeptRefl(h);
    ReadIsDefined(h, csr);
    var reading := op != ReadWrite || dest != 0;
    var a := Access(op, dest, csr, src);
    if reading && ReadCsr(h, csr).None? {
      RefusedAlters(h, a);
    } else {
      var g := if reading then h.(x := SetX(h.x, dest, ReadCsr(h, csr).value)) else h;
      ResultKeeps(h, dest, if reading then ReadCsr(h, csr).value else 0);
      OnlyRegistersDiffer(h, g, g);
      if src.None? {
        RefusedAlters(h, a);
      } else {
        SourceIsConfined(h, g, a);
      }
    }
  }

  function SourceValue(a: Access): Bits
    requires a.src.Some?
  {
    match a.op case ReadWrite => BitsOf(a.src.value) case ReadSet => ALL case ReadClear => {}
  }

  function SourceMask(a: Access): Bits
    requires a.src.Some?
  {
    if a.op == ReadWrite then ALL else BitsOf(a.src.value)
  }

  /** The write that follows the read of a register. */
  lemma SourceIsConfined(h: Hart, g: Hart, a: Access)
    requires GoodHart(h) && GoodHart(g) && !h.privilege.Machine? && g == h.(x := g.x) && a.src.Some?
    ensures match WriteCsr(g, a.csr, SourceValue(a), SourceMask(a))
      case None => !AltersMenvcfg(h, a)
      case Some(t) => t.privilege == h.privilege && (MachineStateKept(h, Next(t).hart) <==> !AltersMenvcfg(h, a))
  {
    hide WriteCsr, AltersMenvcfg, MachineStateKept, WriteFails, GoodHart, WriteEnvcfgCsr, SourceValue, SourceMask;
    var value, mask := SourceValue(a), SourceMask(a);
    SetXKeeps(h, g, a.csr, value, mask);
    if WriteCsr(g, a.csr, value, mask).Some? {
      WriteIsConfined(g, a.csr, value, mask);
      OnlyRegistersDiffer(h, g, WriteCsr(g, a.csr, value, mask).value);
      SenvcfgWrite(h, a);
    } else {
      RefusedAlters(h, a);
    }
  }

  lemma OnlyRegistersDiffer(h: Hart, g: Hart, t: Hart)
    requires g == h.(x := g.x)
    ensures MachineStateKept(h, t) == MachineStateKept(g, t) == MachineStateKept(h, Next(t).hart)
    ensures MachineStateKept(g, g)
  {
  }

  lemma SetXKeeps(h: Hart, g: Hart, csr: Csr, value: Bits, mask: Bits)
    requires GoodHart(h) && GoodHart(g) && g == h.(x := g.x)
    ensures (WriteCsr(g, csr, value, mask).None? <==> WriteFails(h, csr))
  {
  }

  /** An access that is refused, or writes nothing, alters nothing. */
  lemma RefusedAlters(h: Hart, a: Access)
    requires WriteFails(h, a.csr) || a.src.None?
    ensures !AltersMenvcfg(h, a)
  {
  }

  lemma SenvcfgWrite(h: Hart, a: Access)
    requires GoodHart(h) && a.src.Some? && !WriteFails(h, a.csr)
    ensures AltersMenvcfg(h, a) <==>
      a.csr.CsrSenvcfg? && WriteEnvcfgCsr(h.envcfg, a.csr, SourceValue(a), SourceMask(a)).menvcfg != h.envcfg.menvcfg
  {
    hide BitsOf, Aligned, Statuses.Good, TrapRegisters.Good, InterruptRegisters.Good;
    var b, m := BitsOf(a.src.value), h.envcfg.menvcfg;
    WordBits(a.src.value);
    match a.op
    case ReadWrite => assert Merge(m, b, ALL) == b && ALL * ALL == ALL;
    case ReadSet => assert Merge(m, ALL, b * ALL) == m + b;
    case ReadClear => assert Merge(m, {}, b * ALL) == m - b;
  }

  lemma WordBits(w: u32)
    ensures BitsOf(w) <= ALL
  {
    TwoTo32();
    BitsBelow(w, 0, 32);
  }

  lemma WriteIsConfined(h: Hart, csr: Csr, value: Bits, mask: Bits)
    requires GoodHart(h) && !h.privilege.Machine? && WriteCsr(h, csr, value, mask).Some?
    ensures var g := WriteCsr(h, csr, value, mask).value;
      && (MachineStateKept(h, g) <==> g.envcfg.menvcfg == h.envcfg.menvcfg)
      && (!csr.CsrSenvcfg? ==> g.envcfg == h.envcfg) && g.envcfg == WriteEnvcfgCsr(h.envcfg, csr, value, mask)
      && g.privilege == h.privilege
  {
    hide WriteMstatus, WriteSstatus, WriteMstatush, MergeWord, MergeAligned, WriteTvec, WriteCause, SatpFrom, ReadSatp,
         Aligned, SameMachineFields, Statuses.Good,
         IsWord;
    KeptRefl(h);
    SstatusIsConfined(h.status, value, mask);
    assert RequiredRank(csr) < 3;
    MprvSame(h.status, WriteSstatus(h.status, value, mask));
  }

  lemma MprvSame(s: Status, t: Status)
    ensures SameMachineFields(s, t) ==> t.mprv == s.mprv && SameMachineFields(s.(mprv := t.mprv), t)
  {
  }

  // ---------- Exceptions ----------

  /** The access of a register instruction: its operation, destination, register and source value. */
  datatype Access = Access(op: CsrOp, dest: Specifier, csr: Csr, src: Option<u32>)

  function AccessOf(h: Hart, i: Instruction): Option<Access>
    requires |h.x| == 32
  {
    match i
    case CsrReg(op, dest, csr, src) =>
      Some(Access(op, dest, csr, if op == ReadWrite || src != 0 then Some(h.x[src]) else None))
    case CsrImm(op, dest, csr, immediate) =>
      Some(Access(op, dest, csr, if op == ReadWrite || immediate != 0 then Some(immediate) else None))
    case _ => None
  }

  /** A write to a read-only register, which is refused after the register was read into `dest`. */
  predicate RefusedAfterRead(h: Hart, a: Access)
    requires GoodHart(h)
  {
    && a.src.Some? && a.csr.CsrOther? && a.csr.readOnly && a.dest != 0
    && Rank(h.privilege) >= a.csr.rank && a.csr.value.Some? && h.x[a.dest] != a.csr.value.value
  }

  /** A store-conditional that fails in memory, after its success was noted in `dest`. */
  predicate FailedAfterNote(h: Hart, i: Instruction)
    requires GoodHart(h)
  {
    i.StoreConditional? && Aligned(h.x[i.addr]) && i.write(h.x[i.addr], h.x[i.src]).result.Some? && i.dest != 0
      && h.x[i.dest] != 0
  }

  /** Memory accesses, of which a later one fails, that made devices drive a line to another level. */
  predicate DroveLines(h: Hart, i: Instruction)
    requires GoodHart(h)
  {
    var lines := AccessLines(h, i);
    LinesMove(h.interrupts, lines) || (Up(SupervisorSoftware) in lines && !Bit(h.interrupts.mip, SupervisorSoftware))
  }

  /** An instruction that raises an exception leaves the hart as it was, so that it can be repeated,
      except exactly for the three kinds above. */
  lemma PreciseExceptions(h: Hart, i: Instruction)
    requires GoodHart(h) && Execute(h, i).exception.Some?
    ensures Execute(h, i).hart == h <==>
      !(AccessOf(h, i).Some? && RefusedAfterRead(h, AccessOf(h, i).value)) && !FailedAfterNote(h, i)
        && !DroveLines(h, i)
  {
    hide Aligned, Statuses.Good, TrapRegisters.Good, InterruptRegisters.Good, Sret, Mret, ExecuteCsr, ExecuteMemory,
         RefusedAfterRead, FailedAfterNote,
         DroveLines, IsWord;
    if IsMemory(i) {
      PreciseMemory(h, i);
    } else if AccessOf(h, i).Some? {
      var a := AccessOf(h, i).value;
      PreciseAccess(h, a);
      NotStoreConditional(h, i);
    } else {
      PreciseReturns(h);
      NotStoreConditional(h, i);
    }
  }

  lemma PreciseReturns(h: Hart)
    requires GoodHart(h)
    ensures Sret(h).exception.Some? ==> Sret(h).hart == h
    ensures Mret(h).exception.Some? ==> Mret(h).hart == h
  {
  }

  lemma NotStoreConditional(h: Hart, i: Instruction)
    requires GoodHart(h) && !IsMemory(i)
    ensures !FailedAfterNote(h, i) && !DroveLines(h, i)
  {
  }

  lemma PreciseMemory(h: Hart, i: Instruction)
    requires GoodHart(h) && IsMemory(i)
    ensures ExecuteMemory(h, i).exception.Some? ==>
      (ExecuteMemory(h, i).hart == h <==> !FailedAfterNote(h, i) && !DroveLines(h, i))
  {
    hide Aligned, Statuses.Good, TrapRegisters.Good, InterruptRegisters.Good, Drive, IsWord, AccessLines, LinesMove,
         WrappingAdd;
    MemoryEffect(h, i);
    DriveIsQuiet(h.interrupts, AccessLines(h, i));
    FailedRegisters(h, i);
  }

  /** What an instruction that fails in memory made of the general registers. */
  lemma FailedRegisters(h: Hart, i: Instruction)
    requires GoodHart(h) && IsMemory(i)
    ensures var done := ExecuteMemory(h, i);
      done.exception.Some? ==> done.hart.pc == h.pc && (done.hart.x == h.x <==> !FailedAfterNote(h, i))
  {
    hide Aligned, Statuses.Good, TrapRegisters.Good, InterruptRegisters.Good, Drive, IsWord, WrappingAdd;
    if i.StoreConditional? {
      assert SetX(h.x, i.dest, 0) == h.x <==> i.dest == 0 || h.x[i.dest] == 0;
    }
  }

  lemma PreciseAccess(h: Hart, a: Access)
    requires GoodHart(h)
    ensures var done := ExecuteCsr(h, a.op, a.dest, a.csr, a.src);
      done.exception.Some? ==> (done.hart == h <==> !RefusedAfterRead(h, a))
  {
    hide Aligned, Statuses.Good, TrapRegisters.Good, InterruptRegisters.Good, BitsOf, ReadCsr, WriteStatusCsr,
         WriteTrapCsr, WriteInterruptCsr, WriteEnvcfgCsr, IsWord;
    var reading := a.op != ReadWrite || a.dest != 0;
    ReadIsDefined(h, a.csr);
    if reading && ReadCsr(h, a.csr).Some? {
      var v := ReadCsr(h, a.csr).value;
      assert a.dest != 0 && h.x[a.dest] == v ==> SetX(h.x, a.dest, v) == h.x;
    }
  }

  /** Reads and writes are refused alike, but for registers that cannot be written. */
  lemma ReadIsDefined(h: Hart, csr: Csr)
    requires GoodHart(h)
    ensures ReadCsr(h, csr).None? ==> WriteFails(h, csr)
    ensures ReadCsr(h, csr).Some? ==> (WriteFails(h, csr) <==> csr.CsrOther? && csr.readOnly)
    ensures csr.CsrOther? && ReadCsr(h, csr).Some? ==> Rank(h.privilege) >= csr.rank && ReadCsr(h, csr) == csr.value
    ensures csr.CsrOther? && Rank(h.privilege) >= csr.rank ==> ReadCsr(h, csr) == csr.value
  {
  }

  // ---------- Interrupt lines ----------

  const DEVICE_LINES: set<Interrupt> := {MachineExternal, MachineTimer, MachineSoftware}

  function EventLines(h: Hart, e: Event): seq<LineChange>
    requires |h.x| == 32
  {
    match e
    case Stepped(fetch) => StepLines(h, fetch)
    case LineChanged(change) => [change]
    case _ => []
  }

  /** All line changes of a run, those during steps included. */
  function RunLines(v: Vectors, events: seq<Event>): seq<LineChange>
    requires Aligned(v.reset) && Aligned(v.nmi)
  {
    if events == [] then []
    else
      var n := |events| - 1;
      RunLines(v, events[..n]) + EventLines(Run(v, events[..n]), events[n])
  }

  /** Executing instructions and taking traps never changes what devices drive, but for what the
      devices do themselves when they are accessed. */
  lemma StepSetsLevels(h: Hart, fetch: u32 -> Answer<Fetched>, d: Interrupt)
    requires GoodHart(h) && d in DEVICE_LINES
    ensures Bit(Step(h, fetch).interrupts.mip, d) == LevelAfter(StepLines(h, fetch), d, Bit(h.interrupts.mip, d))
  {
    hide GoodHart, Execute, HighestReady, TakeTrap, Bit, Drive, AccessLines, LevelAfter;
    TrapKeepsInterrupts();
    LevelOfNothing();
    LengthOfGood(h);
    if HighestReady(h).None? {
      var answer := fetch(h.pc);
      DriveSetsDeviceBit(h.interrupts, answer.lines, d);
      var g := Driven(h, answer.lines);
      DrivenKeeps(h, answer.lines);
      match answer.result
      case Decoded(i) =>
        ExecuteSetsLevels(g, i, d);
        SameAccessLines(h, g, i);
        LevelAfterMore(answer.lines, AccessLines(h, i), d, Bit(h.interrupts.mip, d));
      case Failed(_) =>
        assert answer.lines + [] == answer.lines;
    }
  }

  lemma LevelOfNothing()
    ensures forall d, before :: LevelAfter([], d, before) == before
  {
  }

  lemma DriveSetsDeviceBit(s: Interrupts, lines: seq<LineChange>, d: Interrupt)
    requires d in DEVICE_LINES
    ensures Bit(Drive(s, lines).mip, d) == LevelAfter(lines, d, Bit(s.mip, d))
  {
    hide Drive, LevelAfter;
    DriveSetsLevels(s, lines, d);
  }

  lemma SameAccessLines(h: Hart, g: Hart, i: Instruction)
    requires |h.x| == 32 && g.x == h.x
    ensures AccessLines(g, i) == AccessLines(h, i)
  {
  }

  lemma TrapKeepsInterrupts()
    ensures forall h, cause :: TakeTrap(h, cause).interrupts == h.interrupts
  {
  }

  lemma ExecuteSetsLevels(h: Hart, i: Instruction, d: Interrupt)
    requires GoodHart(h) && d in DEVICE_LINES
    ensures
      && |h.x| == 32
      && Bit(Execute(h, i).hart.interrupts.mip, d) == LevelAfter(AccessLines(h, i), d, Bit(h.interrupts.mip, d))
  {
    hide Aligned, Statuses.Good, TrapRegisters.Good, InterruptRegisters.Good, ExecuteCsr, ExecuteMemory, Bit, IsWord,
         LevelAfter, Drive;
    LevelOfNothing();
    if IsMemory(i) {
      MemoryEffect(h, i);
      DriveSetsDeviceBit(h.interrupts, AccessLines(h, i), d);
    } else if AccessOf(h, i).Some? {
      AccessKeepsDeviceBits(h, AccessOf(h, i).value, d);
    }
  }

  lemma AccessKeepsDeviceBits(h: Hart, a: Access, d: Interrupt)
    requires GoodHart(h) && d in DEVICE_LINES
    ensures Bit(ExecuteCsr(h, a.op, a.dest, a.csr, a.src).hart.interrupts.mip, d) == Bit(h.interrupts.mip, d)
  {
    hide Aligned, Statuses.Good, TrapRegisters.Good, InterruptRegisters.Good, BitsOf, ReadCsr, WriteStatusCsr,
         WriteTrapCsr, WriteEnvcfgCsr, WriteFails, Bit, WriteMip,
         WriteSip, IsWord;
    if a.src.Some? {
      var value := match a.op case ReadWrite => BitsOf(a.src.value) case ReadSet => ALL case ReadClear => {};
      var mask := if a.op == ReadWrite then ALL else BitsOf(a.src.value);
      DeviceBitsAreReadOnly(h.interrupts, value, mask, d);
    }
  }

  /** In every reachable state MEIP, MTIP and MSIP are what their lines were last set to. */
  lemma {:induction false} DeviceBitsAreLines(v: Vectors, events: seq<Event>, d: Interrupt)
    requires Aligned(v.reset) && Aligned(v.nmi) && d in DEVICE_LINES
    ensures Bit(Run(v, events).interrupts.mip, d) == LevelAfter(RunLines(v, events), d, false)
  {
    hide GoodHart, Step, Aligned, LevelAfter, StepLines;
    LevelOfNothing();
    if events != [] {
      var n := |events| - 1;
      DeviceBitsAreLines(v, events[..n], d);
      var h := Run(v, events[..n]);
      EventSetsLevels(h, v, events[n], d);
      LevelAfterMore(RunLines(v, events[..n]), EventLines(h, events[n]), d, false);
    }
  }

  lemma EventSetsLevels(h: Hart, v: Vectors, e: Event, d: Interrupt)
    requires GoodHart(h) && d in DEVICE_LINES
    ensures
      && |h.x| == 32
      && Bit(Happen(h, v, e).interrupts.mip, d) == LevelAfter(EventLines(h, e), d, Bit(h.interrupts.mip, d))
  {
    hide GoodHart, Step, Bit, SetBit, StepLines, LevelAfter, InterruptRegisters.Apply;
    LevelOfNothing();
    LengthOfGood(h);
    match e
    case Stepped(fetch) => StepSetsLevels(h, fetch, d);
    case LineChanged(change) =>
      DriveSetsDeviceBit(h.interrupts, [change], d);
      DriveOne(h.interrupts, change);
    case _ =>
  }

  lemma DriveOne(s: Interrupts, change: LineChange)
    ensures Drive(s, [change]) == InterruptRegisters.Apply(s, change)
  {
  }
}
