/** The state machine of a privileged hart: what traps, returns, interrupts, register accesses and
    instructions make of its state. */
module Harts {
  import opened Integers
  import opened Options
  import opened Privileges
  import opened Words
  import opened Statuses
  import opened InterruptRegisters
  import opened TrapRegisters

  /** The environment configuration registers. */
  datatype Envcfg = Envcfg(menvcfg: Bits, menvcfgh: Bits, senvcfg: Bits)

  const NO_ENVCFG: Envcfg := Envcfg({}, {}, {})

  datatype Hart = Hart(x: seq<u32>, pc: u32, privilege: Privilege, status: Status, trap: Trap, interrupts: Interrupts,
    envcfg: Envcfg)

  type Specifier = n: nat | n < 32

  /** Writes to register 0 are ignored. */
  function SetX(x: seq<u32>, dest: Specifier, value: u32): (y: seq<u32>)
    requires |x| == 32
    ensures |y| == 32 && y[0] == x[0]
  {
    if dest == 0 then x else x[dest := value]
  }

  /** What every step keeps. */
  predicate GoodHart(h: Hart) {
    && |h.x| == 32 && h.x[0] == 0 && Aligned(h.pc)
    && Statuses.Good(h.status) && TrapRegisters.Good(h.trap) && InterruptRegisters.Good(h.interrupts)
    && IsWord(h.envcfg.menvcfg) && IsWord(h.envcfg.menvcfgh)
  }

  predicate IsWord(b: Bits) {
    b <= ALL
  }

  // ---------- Traps ----------

  predicate ShouldDelegate(h: Hart, code: CauseCode) {
    match code
    case OfException(Some(c)) => c in h.trap.medeleg
    case OfInterrupt(Some(i)) => Bit(h.interrupts.delegate, i)
    case _ => false
  }

  predicate ToSupervisor(h: Hart, cause: Cause) {
    !h.privilege.Machine? && ShouldDelegate(h, CodeOf(cause))
  }

  function TrapValue(cause: Cause, pc: u32): u32 {
    match cause
    case ByException(Some(e)) => (
      match e
      case IllegalInstruction(raw) => if raw.Some? then raw.value else 0
      case Breakpoint => pc
      case EnvironmentCallFromU => 0
      case EnvironmentCallFromS => 0
      case EnvironmentCallFromM => 0
      case _ => e.address)
    case _ => 0
  }

  function HandlerAddress(base: u32, mode: VectorMode, cause: Cause): u32 {
    if mode.Vectored? && cause.ByInterrupt? then
      WrappingAdd(base, 4 * if cause.interrupt.Some? then Code(cause.interrupt.value) else 0)
    else base
  }

  function SaveSupervisor(t: Trap, cause: Cause, pc: u32): Trap {
    t.(lastS := cause, scauseOverride := None, sepc := pc, stval := TrapValue(cause, pc))
  }

  function SaveMachine(t: Trap, cause: Cause, pc: u32): Trap {
    t.(lastM := cause, mcauseOverride := None, mepc := pc, mtval := TrapValue(cause, pc), mtval2 := 0, mtinst := 0)
  }

  function SupervisorTrap(h: Hart, cause: Cause): Hart {
    h.(pc := HandlerAddress(h.trap.sBase, h.trap.sMode, cause), privilege := Supervisor,
       trap := SaveSupervisor(h.trap, cause, h.pc),
       status := EnterSupervisor(h.status, h.privilege))
  }

  function MachineTrap(h: Hart, cause: Cause): Hart {
    h.(pc := HandlerAddress(h.trap.mBase, h.trap.mMode, cause), privilege := Machine,
       trap := SaveMachine(h.trap, cause, h.pc),
       status := EnterMachine(h.status, h.privilege))
  }

  function TakeTrap(h: Hart, cause: Cause): Hart {
    if ToSupervisor(h, cause) then SupervisorTrap(h, cause) else MachineTrap(h, cause)
  }

  function Reset(h: Hart, vector: u32): Hart {
    h.(x := seq(32, _ => 0), pc := vector, privilege := Machine,
       trap := h.trap.(lastM := ByException(None), mcauseOverride := None),
       status := h.status.(mie := false, mprv := false, mbe := false), envcfg := NO_ENVCFG)
  }

  function Nmi(h: Hart, vector: u32): Hart {
    h.(pc := vector, privilege := Machine,
      trap := h.trap.(mepc := h.pc, lastM := ByInterrupt(None), mcauseOverride := None))
  }

  // ---------- Interrupts ----------

  function HighestReady(h: Hart): Option<Interrupt> {
    if h.privilege.Machine? && !h.status.mie then None
    else if MachineReady(h.interrupts).Some? then MachineReady(h.interrupts)
    else if h.privilege.Supervisor? && !h.status.sie then None
    else SupervisorReady(h.interrupts)
  }

  function CheckForInterrupts(h: Hart): Hart {
    match HighestReady(h)
    case Some(i) => TakeTrap(h, ByInterrupt(Some(i)))
    case None => h
  }

  // ---------- Register access ----------

  datatype Csr =
    | CsrSstatus | CsrSie | CsrStvec | CsrSenvcfg | CsrSscratch | CsrSepc | CsrScause | CsrStval | CsrSip | CsrSatp
    | CsrMstatus | CsrMedeleg | CsrMideleg | CsrMie | CsrMtvec | CsrMstatush
    | CsrMscratch | CsrMepc | CsrMcause | CsrMtval | CsrMip | CsrMtinst | CsrMtval2
    | CsrMenvcfg | CsrMenvcfgh
    | CsrOther(rank: nat, value: Option<u32>, readOnly: bool)

  /** The lowest privilege rank that may access a register; 2 is reserved. */
  function RequiredRank(csr: Csr): nat {
    match csr
    case CsrOther(rank, _, _) => rank
    case CsrSstatus => 1
    case CsrSie => 1
    case CsrStvec => 1
    case CsrSenvcfg => 1
    case CsrSscratch => 1
    case CsrSepc => 1
    case CsrScause => 1
    case CsrStval => 1
    case CsrSip => 1
    case CsrSatp => 1
    case _ => 3
  }

  /** As in the code, scause is derived from the last trap into machine mode, and senvcfg names the
      register of machine mode. */
  function ReadCsr(h: Hart, csr: Csr): Option<u32>
    requires GoodHart(h)
  {
    if Rank(h.privilege) < RequiredRank(csr) then None
    else
      match csr
      case CsrSstatus => Some(NumberOf(Sstatus(h.status)))
      case CsrSie => Some(NumberOf(h.interrupts.mie * h.interrupts.delegate))
      case CsrStvec => Some(ReadTvec(h.trap.sBase, h.trap.sMode))
      case CsrSscratch => Some(h.trap.sscratch)
      case CsrSepc => Some(h.trap.sepc)
      case CsrScause => Some(CauseWord(h.trap.lastM, h.trap.scauseOverride))
      case CsrStval => Some(h.trap.stval)
      case CsrSip => Some(NumberOf(h.interrupts.mip * h.interrupts.delegate))
      case CsrSatp => if h.status.tvm then None else Some(ReadSatp(h.trap.satp))
      case CsrMstatus => Some(NumberOf(Mstatus(h.status)))
      case CsrMedeleg => Some(NumberOf(h.trap.medeleg))
      case CsrMideleg => Some(NumberOf(h.interrupts.delegate))
      case CsrMie => Some(NumberOf(h.interrupts.mie))
      case CsrMtvec => Some(ReadTvec(h.trap.mBase, h.trap.mMode))
      case CsrMstatush => Some(NumberOf(Mstatush(h.status)))
      case CsrMscratch => Some(h.trap.mscratch)
      case CsrMepc => Some(h.trap.mepc)
      case CsrMcause => Some(CauseWord(h.trap.lastM, h.trap.mcauseOverride))
      case CsrMtval => Some(h.trap.mtval)
      case CsrMip => Some(NumberOf(h.interrupts.mip))
      case CsrMtinst => Some(h.trap.mtinst)
      case CsrMtval2 => Some(h.trap.mtval2)
      case CsrSenvcfg => Some(NumberOf(h.envcfg.menvcfg))
      case CsrMenvcfg => Some(NumberOf(h.envcfg.menvcfg))
      case CsrMenvcfgh => Some(NumberOf(h.envcfg.menvcfgh))
      case CsrOther(_, value, _) => value
  }

  function WriteStatusCsr(s: Status, csr: Csr, value: Bits, mask: Bits): Status {
    match csr
    case CsrSstatus => WriteSstatus(s, value, mask)
    case CsrMstatus => WriteMstatus(s, value, mask)
    case CsrMstatush => WriteMstatush(s, value, mask)
    case _ => s
  }

  function WriteInterruptCsr(s: Interrupts, csr: Csr, value: Bits, mask: Bits): Interrupts {
    match csr
    case CsrSie => WriteSie(s, value, mask)
    case CsrSip => WriteSip(s, value, mask)
    case CsrMideleg => WriteMideleg(s, value, mask)
    case CsrMie => WriteMie(s, value, mask)
    case CsrMip => WriteMip(s, value, mask)
    case _ => s
  }

  function WriteTrapCsr(t: Trap, csr: Csr, value: Bits, mask: Bits): Trap
    requires TrapRegisters.Good(t)
  {
    match csr
    case CsrStvec => var (base, mode) := WriteTvec(t.sBase, t.sMode, value, mask); t.(sBase := base, sMode := mode)
    case CsrSscratch => t.(sscratch := MergeWord(t.sscratch, value, mask))
    case CsrSepc => t.(sepc := MergeAligned(t.sepc, value, mask))
    case CsrScause => t.(scauseOverride := WriteCause(t.lastS, t.scauseOverride, value, mask))
    case CsrStval => t.(stval := MergeWord(t.stval, value, mask))
    case CsrSatp => t.(satp := SatpFrom(MergeWord(ReadSatp(t.satp), value, mask)))
    case CsrMedeleg => t.(medeleg := WriteMedeleg(t.medeleg, value, mask))
    case CsrMtvec => var (base, mode) := WriteTvec(t.mBase, t.mMode, value, mask); t.(mBase := base, mMode := mode)
    case CsrMscratch => t.(mscratch := MergeWord(t.mscratch, value, mask))
    case CsrMepc => t.(mepc := MergeAligned(t.mepc, value, mask))
    case CsrMcause => t.(mcauseOverride := WriteCause(t.lastM, t.mcauseOverride, value, mask))
    case CsrMtval => t.(mtval := MergeWord(t.mtval, value, mask))
    case CsrMtinst => t.(mtinst := MergeWord(t.mtinst, value, mask))
    case CsrMtval2 => t.(mtval2 := MergeWord(t.mtval2, value, mask))
    case _ => t
  }

  function WriteEnvcfgCsr(e: Envcfg, csr: Csr, value: Bits, mask: Bits): Envcfg {
    match csr
    case CsrSenvcfg => e.(menvcfg := Merge(e.menvcfg, value, mask * ALL))
    case CsrMenvcfg => e.(menvcfg := Merge(e.menvcfg, value, mask * ALL))
    case CsrMenvcfgh => e.(menvcfgh := Merge(e.menvcfgh, value, mask * ALL))
    case _ => e
  }

  predicate WriteFails(h: Hart, csr: Csr) {
    || Rank(h.privilege) < RequiredRank(csr)
    || (csr.CsrSatp? && h.status.tvm)
    || (csr.CsrOther? && (csr.readOnly || csr.value.None?))
  }

  /** None when the access is refused. */
  function WriteCsr(h: Hart, csr: Csr, value: Bits, mask: Bits): Option<Hart>
    requires GoodHart(h)
  {
    if WriteFails(h, csr) then None
    else Some(h.(status := WriteStatusCsr(h.status, csr, value, mask), trap := WriteTrapCsr(h.trap, csr, value, mask),
                 interrupts := WriteInterruptCsr(h.interrupts, csr, value, mask),
                 envcfg := WriteEnvcfgCsr(h.envcfg, csr, value, mask)))
  }

  // ---------- Instructions ----------

  datatype CsrOp = ReadWrite | ReadSet | ReadClear

  datatype MemoryError = MisalignedAccess | AccessFault | PageFault

  datatype ReadResult = Value(value: u32) | ReadError(error: MemoryError)

  /** An answer of memory, and what devices did with the interrupt lines before it was given. */
  datatype Answer<+R> = Answer(result: R, lines: seq<LineChange>)

  type Reader = u32 -> Answer<ReadResult>

  type Writer = (u32, u32) -> Answer<Option<MemoryError>>

  /** Decoded instructions. What arithmetic computes and what memory answers are parameters. */
  datatype Instruction =
    | RegImm(dest: Specifier, src: Specifier, op: u32 -> u32)
    | RegReg(dest: Specifier, src1: Specifier, src2: Specifier, op2: (u32, u32) -> u32)
    | Lui(dest: Specifier, immediate: u32)
    | Auipc(dest: Specifier, immediate: u32)
    | Jal(dest: Specifier, offset: int)
    | Jalr(dest: Specifier, base: Specifier, offset: int)
    | Branch(src1: Specifier, src2: Specifier, offset: int, taken: (u32, u32) -> bool)
    | Load(dest: Specifier, base: Specifier, offset: int, read: Reader)
    | Store(src: Specifier, base: Specifier, offset: int, write: Writer)
    | LoadReserved(dest: Specifier, addr: Specifier, read: Reader)
    | StoreConditional(dest: Specifier, src: Specifier, addr: Specifier, write: Writer)
    | Amo(dest: Specifier, src: Specifier, addr: Specifier, op2: (u32, u32) -> u32, read: Reader, write: Writer)
    | Fence | Ecall | Ebreak | SretInstruction | MretInstruction | Wfi | SfenceVma
    | CsrReg(csrOp: CsrOp, dest: Specifier, csr: Csr, src: Specifier)
    | CsrImm(csrOp: CsrOp, dest: Specifier, csr: Csr, immediate: u32)

  /** The state after an instruction, which may have changed even when an exception is raised. */
  datatype Executed = Executed(hart: Hart, exception: Option<Exception>)

  function Next(h: Hart): Executed {
    Executed(h.(pc := WrappingAdd(h.pc, 4)), None)
  }

  function Result(h: Hart, dest: Specifier, value: u32): Executed
    requires |h.x| == 32
  {
    Next(h.(x := SetX(h.x, dest, value)))
  }

  function Jump(h: Hart, dest: Specifier, target: u32): Executed
    requires |h.x| == 32
  {
    if !Aligned(target) then Executed(h, Some(InstructionAddressMisaligned(target)))
    else Executed(h.(pc := target, x := SetX(h.x, dest, WrappingAdd(h.pc, 4))), None)
  }

  function BranchTo(h: Hart, target: u32): Executed {
    if !Aligned(target) then Executed(h, Some(InstructionAddressMisaligned(target)))
      else Executed(h.(pc := target), None)
  }

  function LoadException(e: MemoryError, address: u32): Exception {
    match e
    case MisalignedAccess => LoadAddressMisaligned(address)
    case AccessFault => LoadAccessFault(address)
    case PageFault => LoadPageFault(address)
  }

  function StoreException(e: MemoryError, address: u32): Exception {
    match e
    case MisalignedAccess => StoreOrAmoAddressMisaligned(address)
    case AccessFault => StoreOrAmoAccessFault(address)
    case PageFault => StoreOrAmoPageFault(address)
  }

  function AmoException(e: MemoryError, address: u32): Exception {
    match e
    case MisalignedAccess => LoadAddressMisaligned(address)
    case AccessFault => LoadAccessFault(address)
    case PageFault => StoreOrAmoPageFault(address)
  }

  function Driven(h: Hart, lines: seq<LineChange>): Hart {
    h.(interrupts := Drive(h.interrupts, lines))
  }

  function LoadFrom(h: Hart, dest: Specifier, address: u32, answer: Answer<ReadResult>): Executed
    requires |h.x| == 32
  {
    match answer.result
    case Value(v) => Result(Driven(h, answer.lines), dest, v)
    case ReadError(e) => Executed(Driven(h, answer.lines), Some(LoadException(e, address)))
  }

  function StoreTo(h: Hart, address: u32, answer: Answer<Option<MemoryError>>): Executed {
    match answer.result
    case None => Next(Driven(h, answer.lines))
    case Some(e) => Executed(Driven(h, answer.lines), Some(StoreException(e, address)))
  }

  function ExecuteAmo(h: Hart, i: Instruction): Executed
    requires |h.x| == 32 && i.Amo?
  {
    var address := h.x[i.addr];
    if !Aligned(address) then Executed(h, Some(LoadAddressMisaligned(address)))
    else
      var answer := i.read(address);
      var g := Driven(h, answer.lines);
      match answer.result
      case ReadError(e) => Executed(g, Some(AmoException(e, address)))
      case Value(v) =>
        var written := i.write(address, i.op2(v, h.x[i.src]));
        match written.result
        case Some(e) => Executed(Driven(g, written.lines), Some(AmoException(e, address)))
        case None => Result(Driven(g, written.lines), i.dest, v)
  }

  predicate IsMemory(i: Instruction) {
    i.Load? || i.Store? || i.LoadReserved? || i.StoreConditional? || i.Amo?
  }

  function ExecuteMemory(h: Hart, i: Instruction): Executed
    requires |h.x| == 32 && IsMemory(i)
  {
    match i
    case Load(dest, base, offset, read) => var a := WrappingAdd(h.x[base], offset); LoadFrom(h, dest, a, read(a))
    case Store(src, base, offset, write) => var a := WrappingAdd(h.x[base], offset); StoreTo(h, a, write(a, h.x[src]))
    case LoadReserved(dest, addr, read) =>
      var a := h.x[addr]; LoadFrom(h, dest, a, if Aligned(a) then read(a) else Answer(ReadError(MisalignedAccess), []))
    case StoreConditional(dest, src, addr, write) =>
      var a := h.x[addr];
      if !Aligned(a) then StoreTo(h, a, Answer(Some(MisalignedAccess), []))
        else StoreTo(h.(x := SetX(h.x, dest, 0)), a, write(a, h.x[src]))
    case Amo(_, _, _, _, _, _) => ExecuteAmo(h, i)
  }

  function Sret(h: Hart): Executed {
    if Rank(h.privilege) < Rank(Supervisor) || h.status.tsr then Executed(h, Some(IllegalInstruction(None)))
    else Executed(h.(pc := h.trap.sepc, privilege := Spp(h.status), status := LeaveSupervisor(h.status)), None)
  }

  function Mret(h: Hart): Executed
    requires Statuses.Good(h.status)
  {
    if !h.privilege.Machine? then Executed(h, Some(IllegalInstruction(None)))
    else Executed(h.(pc := h.trap.mepc, privilege := Mpp(h.status), status := LeaveMachine(h.status)), None)
  }

  /** The read comes first, and stays done when the write is refused. */
  function ExecuteCsr(h: Hart, op: CsrOp, dest: Specifier, csr: Csr, src: Option<u32>): Executed
    requires GoodHart(h)
  {
    var reading := op != ReadWrite || dest != 0;
    if reading && ReadCsr(h, csr).None? then Executed(h, Some(IllegalInstruction(None)))
    else
      var g := if reading then h.(x := SetX(h.x, dest, ReadCsr(h, csr).value)) else h;
      match src
      case None => Next(g)
      case Some(s) =>
        var value := match op case ReadWrite => BitsOf(s) case ReadSet => ALL case ReadClear => {};
        var mask := if op == ReadWrite then ALL else BitsOf(s);
        match WriteCsr(g, csr, value, mask)
        case None => Executed(g, Some(IllegalInstruction(None)))
        case Some(after) => Next(after)
  }

  function Execute(h: Hart, i: Instruction): Executed
    requires GoodHart(h)
  {
    match i
    case RegImm(dest, src, op) => Result(h, dest, op(h.x[src]))
    case RegReg(dest, src1, src2, op) => Result(h, dest, op(h.x[src1], h.x[src2]))
    case Lui(dest, immediate) => Result(h, dest, immediate)
    case Auipc(dest, immediate) => Result(h, dest, WrappingAdd(h.pc, immediate))
    case Jal(dest, offset) => Jump(h, dest, WrappingAdd(h.pc, offset))
    case Jalr(dest, base, offset) => var t := WrappingAdd(h.x[base], offset); Jump(h, dest, t - t % 2)
    case Branch(src1, src2, offset, taken) =>
      if taken(h.x[src1], h.x[src2]) then BranchTo(h, WrappingAdd(h.pc, offset)) else Next(h)
    case Load(_, _, _, _) => ExecuteMemory(h, i)
    case Store(_, _, _, _) => ExecuteMemory(h, i)
    case LoadReserved(_, _, _) => ExecuteMemory(h, i)
    case StoreConditional(_, _, _, _) => ExecuteMemory(h, i)
    case Amo(_, _, _, _, _, _) => ExecuteMemory(h, i)
    case Fence => Next(h)
    case Ecall => Executed(h,
      Some(match h.privilege case User => EnvironmentCallFromU case Supervisor => EnvironmentCallFromS case Machine =>
      EnvironmentCallFromM))
    case Ebreak => Executed(h, Some(Breakpoint))
    case SretInstruction => Sret(h)
    case MretInstruction => Mret(h)
    case Wfi => if !h.privilege.Machine? && h.status.tw then Executed(h, Some(IllegalInstruction(None))) else Next(h)
    case SfenceVma => if h.status.tvm then Executed(h, Some(IllegalInstruction(None))) else Next(h)
    case CsrReg(op, dest, csr, src) =>
      ExecuteCsr(h, op, dest, csr, if op == ReadWrite || src != 0 then Some(h.x[src]) else None)
    case CsrImm(op, dest, csr, immediate) =>
      ExecuteCsr(h, op, dest, csr, if op == ReadWrite || immediate != 0 then Some(immediate) else None)
  }

  /** What fetching and decoding gave. */
  datatype Fetched = Decoded(instruction: Instruction) | Failed(exception: Exception)

  function StepWith(h: Hart, fetched: Fetched): Hart
    requires GoodHart(h)
  {
    var done := match fetched case Decoded(i) => Execute(h, i) case Failed(e) => Executed(h, Some(e));
    match done.exception
    case None => done.hart
    case Some(e) => TakeTrap(done.hart, ByException(Some(e)))
  }

  /** Devices may drive interrupt lines while the instruction is fetched and executed; the check that
      follows already sees them. */
  function Step(h: Hart, fetch: u32 -> Answer<Fetched>): Hart
    requires GoodHart(h)
  {
    if HighestReady(h).Some? then CheckForInterrupts(h)
    else
      var answer := fetch(h.pc);
      DriveKeeps(h.interrupts, answer.lines);
      CheckForInterrupts(StepWith(Driven(h, answer.lines), answer.result))
  }

  // ---------- Interrupt lines driven by a step ----------

  /** The line changes during the memory accesses of an instruction. */
  function AccessLines(h: Hart, i: Instruction): seq<LineChange>
    requires |h.x| == 32
  {
    match i
    case Load(_, base, offset, read) => read(WrappingAdd(h.x[base], offset)).lines
    case Store(src, base, offset, write) => write(WrappingAdd(h.x[base], offset), h.x[src]).lines
    case LoadReserved(_, addr, read) => if Aligned(h.x[addr]) then read(h.x[addr]).lines else []
    case StoreConditional(_, src, addr, write) => if Aligned(h.x[addr]) then write(h.x[addr], h.x[src]).lines else []
    case Amo(_, src, addr, op, read, write) =>
      if !Aligned(h.x[addr]) then []
      else
        var answer := read(h.x[addr]);
        answer.lines + if answer.result.Value? then write(h.x[addr], op(answer.result.value, h.x[src])).lines else []
    case _ => []
  }

  /** The line changes during a step. */
  function StepLines(h: Hart, fetch: u32 -> Answer<Fetched>): seq<LineChange>
    requires |h.x| == 32
  {
    if HighestReady(h).Some? then []
    else
      var answer := fetch(h.pc);
      answer.lines + match answer.result case Decoded(i) => AccessLines(h, i) case Failed(_) => []
  }
}
