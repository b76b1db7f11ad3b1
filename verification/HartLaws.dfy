/** What traps, interrupts, returns and instructions make of the registers of a hart, told from the bits and
    the numbers that the privileged architecture gives them. */
module HartLaws {
  import opened Integers
  import opened Options
  import opened Privileges
  import opened Words
  import opened Statuses
  import opened InterruptRegisters
  import opened TrapRegisters
  import opened Harts
  import opened HartProperties

  // ---------- Traps ----------

  /** A trap enters supervisor mode exactly when the hart is not in machine mode and the cause is an
      exception whose code is set in medeleg or an interrupt whose bit is set in mideleg; otherwise it
      enters machine mode. */
  lemma TrapMode(h: Hart, cause: Cause)
    ensures var t := TakeTrap(h, cause);
      && (t.privilege.Supervisor? <==>
        && !h.privilege.Machine?
        && match cause
           case ByException(e) => e.Some? && ExceptionCode(e.value) in h.trap.medeleg
           case ByInterrupt(i) => i.Some? && Code(i.value) in h.interrupts.delegate)
      && (!t.privilege.Supervisor? ==> t.privilege.Machine?)
  {
  }

  /** Of all registers, a trap changes those that it saves in, those of the level it enters. */
  lemma TrapSaves(h: Hart, cause: Cause, value: u32)
    requires value == match cause
      case ByException(Some(IllegalInstruction(raw))) => if raw.Some? then raw.value else 0
      case ByException(Some(Breakpoint)) => h.pc
      case ByException(Some(EnvironmentCallFromU)) => 0
      case ByException(Some(EnvironmentCallFromS)) => 0
      case ByException(Some(EnvironmentCallFromM)) => 0
      case ByException(Some(e)) => e.address
      case _ => 0
    ensures var t := TakeTrap(h, cause);
      if t.privilege.Supervisor? then
        && t.trap == h.trap.(lastS := cause, scauseOverride := None, sepc := h.pc, stval := value)
        && t.status == h.status.(spie := h.status.sie, sie := false, spp := h.privilege.Supervisor?)
      else
        && t.trap
          == h.trap.(lastM := cause, mcauseOverride := None, mepc := h.pc, mtval := value, mtval2 := 0, mtinst := 0)
        && t.status == h.status.(mpie := h.status.mie, mie := false, mpp := match h.privilege
                                                                            case User => RawUser
                                                                            case Supervisor => RawSupervisor
                                                                            case Machine => RawMachine)
    ensures var t := TakeTrap(h, cause); t.x == h.x && t.interrupts == h.interrupts && t.envcfg == h.envcfg
  {
  }

  /** The handler is where the vector register of the mode says: interrupts have one entry of 4 bytes each
      in a vector table. */
  lemma TrapHandler(h: Hart, cause: Cause)
    ensures var t := TakeTrap(h, cause);
      var (base, mode) := if t.privilege.Supervisor? then (h.trap.sBase, h.trap.sMode)
        else (h.trap.mBase, h.trap.mMode);
      t.pc == if mode.Vectored? && cause.ByInterrupt? && cause.interrupt.Some?
        then (base + 4 * Code(cause.interrupt.value)) % 0x1_0000_0000 else base
  {
  }

  /** After a trap into machine mode, mcause reads the number that the privileged architecture gives its
      cause. */
  lemma McauseAfterTrap(h: Hart, cause: Cause)
    requires GoodHart(h) && GoodHart(TakeTrap(h, cause)) && TakeTrap(h, cause).privilege.Machine?
    ensures ReadCsr(TakeTrap(h, cause), CsrMcause) == Some(match cause
      case ByException(None) => 0
      case ByException(Some(InstructionAddressMisaligned(_))) => 0
      case ByException(Some(InstructionAccessFault(_))) => 1
      case ByException(Some(IllegalInstruction(_))) => 2
      case ByException(Some(Breakpoint)) => 3
      case ByException(Some(LoadAddressMisaligned(_))) => 4
      case ByException(Some(LoadAccessFault(_))) => 5
      case ByException(Some(StoreOrAmoAddressMisaligned(_))) => 6
      case ByException(Some(StoreOrAmoAccessFault(_))) => 7
      case ByException(Some(EnvironmentCallFromU)) => 8
      case ByException(Some(EnvironmentCallFromS)) => 9
      case ByException(Some(EnvironmentCallFromM)) => 11
      case ByException(Some(InstructionPageFault(_))) => 12
      case ByException(Some(LoadPageFault(_))) => 13
      case ByException(Some(StoreOrAmoPageFault(_))) => 15
      case ByInterrupt(None) => 0x8000_0000
      case ByInterrupt(Some(SupervisorSoftware)) => 0x8000_0001
      case ByInterrupt(Some(MachineSoftware)) => 0x8000_0003
      case ByInterrupt(Some(SupervisorTimer)) => 0x8000_0005
      case ByInterrupt(Some(MachineTimer)) => 0x8000_0007
      case ByInterrupt(Some(SupervisorExternal)) => 0x8000_0009
      case ByInterrupt(Some(MachineExternal)) => 0x8000_000B)
  {
    hide Aligned, Statuses.Good, TrapRegisters.Good, InterruptRegisters.Good, EnterSupervisor, EnterMachine,
         HandlerAddress, TrapValue;
  }

  /** sret goes back to what a trap into supervisor mode saved. */
  lemma SretRestores(h: Hart)
    requires GoodHart(h)
    ensures var done := Execute(h, SretInstruction);
      if h.privilege.User? || h.status.tsr then done == Executed(h, Some(IllegalInstruction(None)))
      else
        && done.exception.None?
        && done.hart == h.(pc := h.trap.sepc, privilege := if h.status.spp then Supervisor else User,
                           status := h.status.(sie := h.status.spie, spie := true, spp := false, mprv := false))
  {
    hide Aligned, TrapRegisters.Good, InterruptRegisters.Good, Statuses.Good, LeaveSupervisor;
    SupervisorLeaves(h.status);
  }

  lemma SupervisorLeaves(s: Status)
    ensures LeaveSupervisor(s) == s.(sie := s.spie, spie := true, spp := false, mprv := false)
  {
  }

  lemma MachineLeaves(s: Status)
    requires Statuses.Good(s)
    ensures !s.mpp.RawReserved?
    ensures LeaveMachine(s)
      == s.(mie := s.mpie, mpie := true, mpp := RawUser, mprv := s.mpp.RawMachine? && s.mprv)
  {
  }

  /** mret goes back to what a trap into machine mode saved. */
  lemma MretRestores(h: Hart)
    requires GoodHart(h)
    ensures var done := Execute(h, MretInstruction);
      if !h.privilege.Machine? then done == Executed(h, Some(IllegalInstruction(None)))
      else
        && done.exception.None? && !h.status.mpp.RawReserved?
        && done.hart == h.(pc := h.trap.mepc,
                           privilege := if h.status.mpp.RawMachine? then Machine
                             else if h.status.mpp.RawSupervisor? then Supervisor else User,
                           status := h.status.(mie := h.status.mpie, mpie := true, mpp := RawUser,
                             mprv := h.status.mpp.RawMachine? && h.status.mprv))
  {
    hide Aligned, TrapRegisters.Good, InterruptRegisters.Good, Statuses.Good, LeaveMachine;
    MachineLeaves(h.status);
  }

  // ---------- Interrupts ----------

  /** An interrupt that is taken enters supervisor mode exactly when it is delegated and the hart is below
      machine mode. */
  lemma InterruptMode(h: Hart, i: Interrupt)
    requires HighestReady(h) == Some(i)
    ensures CheckForInterrupts(h).privilege
      == if !h.privilege.Machine? && Code(i) in h.interrupts.delegate then Supervisor else Machine
    ensures TrapsToSupervisor(h, i) ==> CheckForInterrupts(h).privilege.Supervisor?
    ensures TrapsToMachine(h, i) ==> CheckForInterrupts(h).privilege.Machine?
  {
    TrapMode(h, ByInterrupt(Some(i)));
  }

  /** The only interrupt that is both pending and enabled: when it is taken, and into which mode. In machine
      mode the code does not look at the delegation. */
  lemma SoleInterrupt(h: Hart, i: Interrupt)
    requires GoodHart(h) && h.interrupts.mip * h.interrupts.mie == {Code(i)}
    ensures var t, delegated := CheckForInterrupts(h), Code(i) in h.interrupts.delegate;
      if h.privilege.Machine? && !h.status.mie then t == h
      else if h.privilege.Supervisor? && delegated && !h.status.sie then t == h
      else if !h.privilege.Machine? && delegated
        then t.privilege.Supervisor? && t.trap.sepc == h.pc && t.trap.lastS == ByInterrupt(Some(i))
      else t.privilege.Machine? && t.trap.mepc == h.pc && t.trap.lastM == ByInterrupt(Some(i))
  {
    hide Aligned, Statuses.Good, TrapRegisters.Good, FirstIn, TakeTrap, InterruptRegisters.Good;
    var s := h.interrupts;
    ReadyIsFirst(s);
    OnlyPending(s, i);
    assert Pending(s, i);
    if HighestReady(h).Some? {
      assert Pending(s, HighestReady(h).value);
      assert CheckForInterrupts(h) == TakeTrap(h, ByInterrupt(Some(i)));
      TrapMode(h, ByInterrupt(Some(i)));
      TrapSaves(h, ByInterrupt(Some(i)), 0);
    }
  }

  lemma OnlyPending(s: Interrupts, i: Interrupt)
    requires s.mip * s.mie == {Code(i)}
    ensures forall j :: Pending(s, j) <==> j == i
  {
    forall j ensures Pending(s, j) <==> j == i {
      assert Pending(s, j) <==> Code(j) in s.mip * s.mie;
    }
  }

  /** With none pending and enabled, nothing is taken. */
  lemma NoInterrupt(h: Hart)
    requires GoodHart(h) && h.interrupts.mip * h.interrupts.mie == {}
    ensures CheckForInterrupts(h) == h
  {
    hide Aligned, Statuses.Good, TrapRegisters.Good, FirstIn, TakeTrap, InterruptRegisters.Good;
    var s := h.interrupts;
    ReadyIsFirst(s);
    forall j ensures !Pending(s, j) {
      assert Pending(s, j) <==> Code(j) in s.mip * s.mie;
    }
  }

  /** Section 3.1.9 orders the interrupts by their numbers: none is taken while an earlier one for the same
      mode is pending and enabled. */
  lemma OrderOfNumbers(h: Hart, a: nat, b: nat)
    requires GoodHart(h) && a < b < 6
    requires var order := [11, 3, 7, 9, 1, 5];
      && {order[a], order[b]} <= h.interrupts.mip * h.interrupts.mie
      && (order[a] in h.interrupts.delegate <==> order[b] in h.interrupts.delegate)
    ensures HighestReady(h).Some? ==> Code(HighestReady(h).value) != [11, 3, 7, 9, 1, 5][b]
  {
    hide Aligned, Statuses.Good, TrapRegisters.Good, FirstIn, InterruptRegisters.Good;
    var s, order := h.interrupts, [11, 3, 7, 9, 1, 5];
    ReadyIsFirst(s);
    var i, j := MACHINE_ORDER[a], MACHINE_ORDER[b];
    assert Code(i) == order[a] && Code(j) == order[b] && Place(i) == a && Place(j) == b;
    assert Code(i) in s.mip * s.mie;
  }

  // ---------- Instructions ----------

  /** Where execution goes on after an instruction that raises no exception: behind it, unless it is a jump,
      a return, or a branch whose condition holds. */
  lemma ControlFlow(h: Hart, i: Instruction)
    requires GoodHart(h) && Execute(h, i).exception.None?
    ensures |h.x| == 32 && Execute(h, i).hart.pc == match i
      case Jal(_, offset) => (h.pc + offset) % 0x1_0000_0000
      case Jalr(_, base, offset) => (h.x[base] + offset) % 0x1_0000_0000 / 2 * 2
      case Branch(a, b, offset, holds) =>
        if holds(h.x[a], h.x[b]) then (h.pc + offset) % 0x1_0000_0000 else (h.pc + 4) % 0x1_0000_0000
      case SretInstruction => h.trap.sepc
      case MretInstruction => h.trap.mepc
      case _ => (h.pc + 4) % 0x1_0000_0000
  {
    hide Aligned, Statuses.Good, TrapRegisters.Good, InterruptRegisters.Good, IsWord, ReadCsr, WriteStatusCsr,
         WriteTrapCsr, WriteInterruptCsr, WriteEnvcfgCsr, WriteFails, BitsOf, Drive;
  }

  /** A branch or jump raises an exception exactly when it is taken and its target is not word-aligned, and
      then changes nothing. A jump leaves the address behind it in its destination, and nothing else is
      changed by either. */
  lemma BranchesAndJumps(h: Hart, i: Instruction)
    requires GoodHart(h) && (i.Branch? || i.Jal? || i.Jalr?)
    ensures |h.x| == 32
    ensures var done := Execute(h, i);
      var (taken, target) := match i
        case Branch(a, b, offset, holds) => (holds(h.x[a], h.x[b]), (h.pc + offset) % 0x1_0000_0000)
        case Jal(_, offset) => (true, (h.pc + offset) % 0x1_0000_0000)
        case Jalr(_, base, offset) => (true, (h.x[base] + offset) % 0x1_0000_0000 / 2 * 2)
        case _ => (false, 0);
      && (taken && target % 4 != 0 ==> done == Executed(h, Some(InstructionAddressMisaligned(target))))
      && (!(taken && target % 4 != 0) ==>
          && done.exception.None? && done.hart == h.(pc := done.hart.pc, x := done.hart.x)
          && done.hart.x == if i.Branch? || i.dest == 0 then h.x else h.x[i.dest := (h.pc + 4) % 0x1_0000_0000])
  {
    hide Statuses.Good, TrapRegisters.Good, InterruptRegisters.Good, IsWord;
  }

  /** Computations never fail, and set their destination alone. */
  lemma Computations(h: Hart, i: Instruction)
    requires GoodHart(h) && (i.RegImm? || i.RegReg? || i.Lui? || i.Auipc? || i.Fence?)
    ensures |h.x| == 32
    ensures Execute(h, i) == Executed(h.(pc := (h.pc + 4) % 0x1_0000_0000,
      x := if i.Fence? || i.dest == 0 then h.x
        else h.x[i.dest := match i
                           case RegImm(_, src, op) => op(h.x[src])
                           case RegReg(_, src1, src2, op) => op(h.x[src1], h.x[src2])
                           case Lui(_, immediate) => immediate
                           case _ => (h.pc + i.immediate) % 0x1_0000_0000]), None)
  {
    hide Statuses.Good, TrapRegisters.Good, InterruptRegisters.Good, IsWord;
  }

  /** The other instructions without a destination either raise an exception and change nothing, or do
      nothing but go on. */
  lemma SystemInstructions(h: Hart)
    requires GoodHart(h)
    ensures var next := Executed(h.(pc := (h.pc + 4) % 0x1_0000_0000), None);
      && Execute(h, Ebreak) == Executed(h, Some(Breakpoint))
      && Execute(h, Ecall) == Executed(h, Some(if h.privilege.User? then EnvironmentCallFromU
                                          else if h.privilege.Supervisor? then EnvironmentCallFromS
                                          else EnvironmentCallFromM))
      && Execute(h, Wfi) == (if h.status.tw && !h.privilege.Machine? then Executed(h, Some(IllegalInstruction(None)))
                             else next)
      && Execute(h, SfenceVma) == (if h.status.tvm then Executed(h, Some(IllegalInstruction(None))) else next)
  {
    hide Statuses.Good, TrapRegisters.Good, InterruptRegisters.Good, IsWord;
  }

  /** Loads and stores: their address, what they do to the registers, and which exception they raise. */
  lemma LoadsAndStores(h: Hart, i: Instruction)
    requires GoodHart(h) && (i.Load? || i.Store?)
    ensures |h.x| == 32
    ensures var done, address := Execute(h, i), (h.x[i.base] + i.offset) % 0x1_0000_0000;
      match i
      case Load(dest, _, _, read) => (
        match read(address).result
        case Value(v) => done.exception.None? && done.hart.x == if dest == 0 then h.x else h.x[dest := v]
        case ReadError(e) => done.hart.x == h.x && done.exception == Some(match e
          case MisalignedAccess => LoadAddressMisaligned(address)
          case AccessFault => LoadAccessFault(address)
          case PageFault => LoadPageFault(address)))
      case Store(src, _, _, write) => done.hart.x == h.x && done.exception == (match write(address, h.x[src]).result
        case None => None
        case Some(MisalignedAccess) => Some(StoreOrAmoAddressMisaligned(address))
        case Some(AccessFault) => Some(StoreOrAmoAccessFault(address))
        case Some(PageFault) => Some(StoreOrAmoPageFault(address)))
      case _ => false
    ensures var done, address := Execute(h, i), (h.x[i.base] + i.offset) % 0x1_0000_0000;
      done.hart == h.(x := done.hart.x, pc := done.hart.pc, interrupts := Drive(h.interrupts,
        if i.Load? then i.read(address).lines else i.write(address, h.x[i.src]).lines))
  {
    hide Aligned, Statuses.Good, TrapRegisters.Good, InterruptRegisters.Good, IsWord, Drive;
  }

  /** Accesses of the atomic extension fault at an address that is not word-aligned, before memory is asked. */
  lemma ReservedAccesses(h: Hart, i: Instruction)
    requires GoodHart(h) && (i.LoadReserved? || i.StoreConditional?)
    ensures |h.x| == 32
    ensures var done, address := Execute(h, i), h.x[i.addr];
      if address % 4 != 0 then
        done == Executed(h, Some(if i.LoadReserved? then LoadAddressMisaligned(address)
                            else StoreOrAmoAddressMisaligned(address)))
      else
        match i
        case LoadReserved(dest, _, read) => (
          match read(address).result
          case Value(v) => done.exception.None? && done.hart.x == if dest == 0 then h.x else h.x[dest := v]
          case ReadError(e) => done.hart.x == h.x && done.exception.Some?)
        case StoreConditional(dest, src, _, write) =>
          && done.hart.x == (if dest == 0 then h.x else h.x[dest := 0])
          && (done.exception.None? <==> write(address, h.x[src]).result.None?)
        case _ => false
    ensures var done, address := Execute(h, i), h.x[i.addr];
      address % 4 == 0 ==>
        done.hart == h.(x := done.hart.x, pc := done.hart.pc, interrupts := Drive(h.interrupts,
          if i.LoadReserved? then i.read(address).lines else i.write(address, h.x[i.src]).lines))
  {
    hide Statuses.Good, TrapRegisters.Good, InterruptRegisters.Good, IsWord;
    DriveNothing(h.interrupts);
  }

  /** An atomic operation writes what it computes from the word it read and from its source, and leaves the
      word it read in its destination. */
  lemma AtomicOperations(h: Hart, i: Instruction)
    requires GoodHart(h) && i.Amo?
    ensures |h.x| == 32
    ensures var done, address := Execute(h, i), h.x[i.addr];
      if address % 4 != 0 then done == Executed(h, Some(LoadAddressMisaligned(address)))
      else
        match i.read(address).result
        case Value(v) =>
          var written := i.write(address, i.op2(v, h.x[i.src])).result;
          && (done.exception.None? <==> written.None?)
          && done.hart.x == if written.Some? || i.dest == 0 then h.x else h.x[i.dest := v]
        case ReadError(e) => done.hart.x == h.x && done.exception.Some?
    ensures var done, address := Execute(h, i), h.x[i.addr];
      address % 4 == 0 ==>
        var answer := i.read(address);
        var driven := Drive(h.interrupts, answer.lines);
        done.hart == h.(x := done.hart.x, pc := done.hart.pc,
          interrupts := if answer.result.ReadError? then driven
            else Drive(driven, i.write(address, i.op2(answer.result.value, h.x[i.src])).lines))
  {
    hide Statuses.Good, TrapRegisters.Good, InterruptRegisters.Good, IsWord, Drive;
  }

  /** What devices drive: each line change sets or clears the pending bit of its interrupt, by number. The
      software lines only set, the supervisor timer has no line, and the supervisor external interrupt stays
      pending while software keeps it so. */
  lemma LineChanges(s: Interrupts, lines: seq<LineChange>, i: Interrupt)
    ensures Drive(s, []) == s
    ensures var u := Drive(s, lines);
      && Drive(s, lines + [Up(i)]) == (match i
        case SupervisorSoftware => u.(mip := u.mip + {1})
        case MachineSoftware => u.(mip := u.mip + {3})
        case SupervisorTimer => u
        case MachineTimer => u.(mip := u.mip + {7})
        case SupervisorExternal => u.(mip := u.mip + {9}, seipExternal := true)
        case MachineExternal => u.(mip := u.mip + {11}))
      && Drive(s, lines + [Down(i)]) == (match i
        case MachineTimer => u.(mip := u.mip - {7})
        case SupervisorExternal =>
          u.(mip := if u.seipInternal then u.mip + {9} else u.mip - {9}, seipExternal := false)
        case MachineExternal => u.(mip := u.mip - {11})
        case _ => u)
  {
    assert (lines + [Up(i)])[..|lines|] == lines && (lines + [Down(i)])[..|lines|] == lines;
  }

  // ---------- Steps ----------

  /** A step takes an interrupt that is ready before it fetches. Else it fetches at the program counter and
      executes, an exception of either being taken as a trap, and then takes an interrupt that is ready. */
  lemma StepInOrder(h: Hart, fetch: u32 -> Answer<Fetched>)
    requires GoodHart(h)
    ensures HighestReady(h).Some? ==> Step(h, fetch) == TakeTrap(h, ByInterrupt(HighestReady(h)))
    ensures HighestReady(h).None? ==>
      var answer := fetch(h.pc);
      var g := h.(interrupts := Drive(h.interrupts, answer.lines));
      && GoodHart(g)
      && Step(h, fetch) == CheckForInterrupts(match answer.result
        case Failed(e) => TakeTrap(g, ByException(Some(e)))
        case Decoded(i) =>
          if Execute(g, i).exception.None? then Execute(g, i).hart
          else TakeTrap(Execute(g, i).hart, ByException(Execute(g, i).exception)))
  {
    hide GoodHart, Execute, HighestReady, TakeTrap, Drive;
    DrivenKeeps(h, fetch(h.pc).lines);
  }

  /** What a line change, a non-maskable interrupt and a reset do. */
  lemma OtherEvents(h: Hart, v: Vectors, change: LineChange)
    requires GoodHart(h)
    ensures Happen(h, v, LineChanged(change)) == h.(interrupts := Drive(h.interrupts, [change]))
    ensures Happen(h, v, NonMaskableInterrupt)
      == h.(pc := v.nmi, privilege := Machine,
            trap := h.trap.(mepc := h.pc, lastM := ByInterrupt(None), mcauseOverride := None))
    ensures var g := Happen(h, v, ResetSignal);
      && |g.x| == 32 && (forall r :: 0 <= r < 32 ==> g.x[r] == 0) && g.pc == v.reset && g.privilege.Machine?
      && g.status == h.status.(mie := false, mprv := false, mbe := false)
      && g.trap == h.trap.(lastM := ByException(None), mcauseOverride := None)
      && g.interrupts == h.interrupts && g.envcfg == Envcfg({}, {}, {})
  {
    hide Drive, InterruptRegisters.Apply;
    DriveOne(h.interrupts, change);
  }

  // ---------- Registers ----------

  const SUPERVISOR_REGISTERS: set<Csr> :=
    {CsrSstatus, CsrSie, CsrStvec, CsrSenvcfg, CsrSscratch, CsrSepc, CsrScause, CsrStval, CsrSip, CsrSatp}

  /** User mode may access none of the named registers, and supervisor mode only its own; TVM closes satp, to
      machine mode as well. A register can be written exactly when it can be read and is not read-only. */
  lemma RegisterAccess(h: Hart, csr: Csr, value: Bits, mask: Bits)
    requires GoodHart(h)
    ensures ReadCsr(h, csr).None? <==>
      if csr.CsrOther? then
        csr.value.None? || csr.rank > (if h.privilege.User? then 0 else if h.privilege.Supervisor? then 1 else 3)
      else
        || h.privilege.User? || (csr.CsrSatp? && h.status.tvm)
        || (h.privilege.Supervisor? && csr !in SUPERVISOR_REGISTERS)
    ensures WriteCsr(h, csr, value, mask).None? <==> ReadCsr(h, csr).None? || (csr.CsrOther? && csr.readOnly)
  {
    hide Aligned, Statuses.Good, TrapRegisters.Good, InterruptRegisters.Good, IsWord, Mstatus, Mstatush, Sstatus,
         NumberOf, ReadTvec, ReadSatp, CauseWord, WriteStatusCsr, WriteTrapCsr, WriteInterruptCsr, WriteEnvcfgCsr;
  }

  /** A register without fields of its own holds what was written. */
  lemma WriteThenRead(h: Hart, csr: Csr, w: u32)
    requires GoodHart(h) && WriteCsr(h, csr, BitsOf(w), ALL).Some?
    requires csr in {CsrSscratch, CsrMscratch, CsrStval, CsrMtval, CsrMtinst, CsrMtval2, CsrSatp}
    ensures GoodHart(WriteCsr(h, csr, BitsOf(w), ALL).value)
    ensures ReadCsr(WriteCsr(h, csr, BitsOf(w), ALL).value, csr) == Some(w)
  {
    hide Statuses.Good, InterruptRegisters.Good, IsWord, BitsOf, MergeWord, MergeAligned, WriteTvec, ReadTvec, Aligned;
    WriteCsrKeeps(h, csr, BitsOf(w), ALL);
    WholeWrite(match csr
      case CsrSscratch => h.trap.sscratch
      case CsrMscratch => h.trap.mscratch
      case CsrStval => h.trap.stval
      case CsrMtval => h.trap.mtval
      case CsrMtinst => h.trap.mtinst
      case CsrMtval2 => h.trap.mtval2
      case _ => ReadSatp(h.trap.satp), w);
  }

  /** sepc and mepc lose the two lowest bits, and a vector register with a reserved mode is not written. */
  lemma AddressThenRead(h: Hart, csr: Csr, w: u32)
    requires GoodHart(h) && WriteCsr(h, csr, BitsOf(w), ALL).Some?
    requires csr in {CsrSepc, CsrMepc, CsrStvec, CsrMtvec}
    ensures GoodHart(WriteCsr(h, csr, BitsOf(w), ALL).value)
    ensures ReadCsr(WriteCsr(h, csr, BitsOf(w), ALL).value, csr) ==
      if csr in {CsrSepc, CsrMepc} then Some(w - w % 4) else if w % 4 < 2 then Some(w) else ReadCsr(h, csr)
  {
    hide Statuses.Good, InterruptRegisters.Good, IsWord, BitsOf, MergeWord, MergeAligned;
    WriteCsrKeeps(h, csr, BitsOf(w), ALL);
    if csr in {CsrSepc, CsrMepc} {
      WholeAligned(if csr.CsrSepc? then h.trap.sepc else h.trap.mepc, w);
    } else {
      WholeWrite(if csr.CsrStvec? then ReadTvec(h.trap.sBase, h.trap.sMode) else ReadTvec(h.trap.mBase, h.trap.mMode),
                 w);
    }
  }

  lemma WholeAligned(before: u32, w: u32)
    ensures MergeAligned(before, BitsOf(w), ALL) == w - w % 4
  {
    hide BitsOf;
    WordBits(w);
    WordBits(before);
    assert (BitsOf(before) - ALL) + (BitsOf(w) * ALL - {0, 1}) == BitsOf(w) - {0, 1};
    WithoutLowBits(w);
  }

  lemma WithoutLowBits(w: u32)
    ensures NumberOf(BitsOf(w) - {0, 1}) == w - w % 4
  {
    hide BitsOf, BitsFrom, NumberFrom;
    var b := BitsOf(w) - {0, 1};
    NumberOfBits(w);
    LowBits(w);
    NumberUnfolds(b, 0, 32);
    NumberUnfolds(b, 1, 31);
    NumberUnfolds(BitsOf(w), 0, 32);
    NumberUnfolds(BitsOf(w), 1, 31);
    NumberDependsOnBits(b, BitsOf(w), 2, 30);
  }

  /** A write of a cause register is read back when it is the number of a cause, and is ignored otherwise. */
  lemma CauseThenRead(h: Hart, csr: Csr, w: u32)
    requires GoodHart(h) && csr in {CsrScause, CsrMcause} && WriteCsr(h, csr, BitsOf(w), ALL).Some?
    ensures GoodHart(WriteCsr(h, csr, BitsOf(w), ALL).value)
    ensures var known := if w < 0x8000_0000 then w <= 9 || w in {11, 12, 13, 15}
      else w - 0x8000_0000 in {0, 1, 3, 5, 7, 9, 11};
      ReadCsr(WriteCsr(h, csr, BitsOf(w), ALL).value, csr) == if known then Some(w) else ReadCsr(h, csr)
  {
    hide Aligned, Statuses.Good, TrapRegisters.Good, InterruptRegisters.Good, IsWord, BitsOf, MergeWord, ReadCause,
         CodeWord, CauseFrom;
    WriteCsrKeeps(h, csr, BitsOf(w), ALL);
    WholeWrite(CauseWord(h.trap.lastM, h.trap.mcauseOverride), w);
    WholeWrite(CauseWord(h.trap.lastS, h.trap.scauseOverride), w);
    KnownCauses(w);
    WordOfCause(h.trap.lastM, w);
  }

  lemma KnownCauses(w: u32)
    ensures CauseFrom(w).Some? <==>
      if w < 0x8000_0000 then w <= 9 || w in {11, 12, 13, 15} else w - 0x8000_0000 in {0, 1, 3, 5, 7, 9, 11}
  {
  }

  const STATUS_REGISTERS: set<Csr> := {CsrSstatus, CsrMstatus, CsrMstatush}
  const INTERRUPT_REGISTERS: set<Csr> := {CsrSie, CsrSip, CsrMideleg, CsrMie, CsrMip}
  const ENVIRONMENT_REGISTERS: set<Csr> := {CsrSenvcfg, CsrMenvcfg, CsrMenvcfgh}

  /** A write changes nothing but the registers of its kind. */
  lemma WritesAreLocal(h: Hart, csr: Csr, value: Bits, mask: Bits)
    requires GoodHart(h) && WriteCsr(h, csr, value, mask).Some?
    ensures var g := WriteCsr(h, csr, value, mask).value;
      if csr in STATUS_REGISTERS then g == h.(status := g.status)
      else if csr in INTERRUPT_REGISTERS then g == h.(interrupts := g.interrupts)
      else if csr in ENVIRONMENT_REGISTERS then g == h.(envcfg := g.envcfg)
      else if csr.CsrOther? then g == h
      else g == h.(trap := g.trap)
  {
    hide Aligned, Statuses.Good, TrapRegisters.Good, InterruptRegisters.Good, IsWord, WriteMstatus, WriteSstatus,
         WriteMstatush, MergeWord, MergeAligned, WriteTvec, WriteCause, SatpFrom, ReadSatp, WriteMedeleg;
  }

  /** Two registers that share nothing do not see each other's writes. */
  lemma OthersReadAsBefore(h: Hart, csr: Csr, value: Bits, mask: Bits, other: Csr)
    requires GoodHart(h) && WriteCsr(h, csr, value, mask).Some? && other != csr
    requires csr !in STATUS_REGISTERS + INTERRUPT_REGISTERS + ENVIRONMENT_REGISTERS
    ensures GoodHart(WriteCsr(h, csr, value, mask).value)
    ensures ReadCsr(WriteCsr(h, csr, value, mask).value, other) == ReadCsr(h, other)
  {
    hide Aligned, Statuses.Good, TrapRegisters.Good, InterruptRegisters.Good, IsWord, WriteMstatus, WriteSstatus,
         WriteMstatush, MergeWord, MergeAligned, WriteTvec, WriteCause, SatpFrom, ReadSatp, WriteMedeleg, ReadTvec,
         CauseWord, NumberOf, Sstatus, Mstatus, Mstatush;
    WriteCsrKeeps(h, csr, value, mask);
    WritesAreLocal(h, csr, value, mask);
  }

  /** Which bits of the registers that are sets of bits a write changes, by number. */
  lemma MaskedWrites(h: Hart, csr: Csr, value: Bits, mask: Bits)
    requires GoodHart(h) && WriteCsr(h, csr, value, mask).Some?
    ensures var g := WriteCsr(h, csr, value, mask).value;
      var (s, t) := (h.interrupts, g.interrupts);
      match csr
      case CsrMideleg =>
        && t == s.(delegate := t.delegate)
        && forall n :: n in t.delegate <==> if n in mask && n in {1, 5, 9} then n in value else n in s.delegate
      case CsrMie =>
        && t == s.(mie := t.mie)
        && forall n :: n in t.mie <==> if n in mask && n in {1, 3, 5, 7, 9, 11} then n in value else n in s.mie
      case CsrSie =>
        && t == s.(mie := t.mie)
        && forall n :: n in t.mie <==> if n in mask && n in s.delegate then n in value else n in s.mie
      case CsrMip =>
        && t == s.(mip := t.mip, seipInternal := if 9 in mask then 9 in value else s.seipInternal)
        && forall n :: n in t.mip <==>
          if n in mask && n in {1, 5} then n in value
          else if n in mask && n == 9 then 9 in value || s.seipExternal else n in s.mip
      case CsrSip =>
        && t == s.(mip := t.mip)
        && forall n :: n in t.mip <==> if n in mask && n == 1 then 1 in value else n in s.mip
      case _ => t == s
  {
    hide Aligned, Statuses.Good, TrapRegisters.Good, InterruptRegisters.Good, IsWord, WriteStatusCsr, WriteTrapCsr,
         WriteEnvcfgCsr;
  }

  /** The same of medeleg and the environment configuration. */
  lemma OtherMaskedWrites(h: Hart, csr: Csr, value: Bits, mask: Bits)
    requires GoodHart(h) && WriteCsr(h, csr, value, mask).Some?
    ensures var g := WriteCsr(h, csr, value, mask).value;
      match csr
      case CsrMedeleg => forall n :: n in g.trap.medeleg <==>
        if n in mask then n in value && (n <= 9 || n in {11, 12, 13, 15}) else n in h.trap.medeleg
      case CsrMenvcfgh =>
        && g.envcfg == h.envcfg.(menvcfgh := g.envcfg.menvcfgh)
        && forall n :: n in g.envcfg.menvcfgh <==> if n in mask && n < 32 then n in value else n in h.envcfg.menvcfgh
      case _ =>
        && g.trap.medeleg == h.trap.medeleg && g.envcfg == h.envcfg.(menvcfg := g.envcfg.menvcfg)
        && forall n :: n in g.envcfg.menvcfg <==>
          if csr in {CsrSenvcfg, CsrMenvcfg} && n in mask && n < 32 then n in value else n in h.envcfg.menvcfg
  {
    hide Aligned, Statuses.Good, TrapRegisters.Good, InterruptRegisters.Good, IsWord, WriteStatusCsr,
         WriteInterruptCsr, MergeWord, MergeAligned, WriteTvec, WriteCause, SatpFrom, ReadSatp;
  }

  /** What the registers that are sets of bits read as. */
  lemma ReadsShowBits(h: Hart, csr: Csr)
    requires GoodHart(h) && h.privilege.Machine?
    requires csr in INTERRUPT_REGISTERS + ENVIRONMENT_REGISTERS + {CsrMedeleg}
    ensures ReadCsr(h, csr).Some?
    ensures BitsOf(ReadCsr(h, csr).value) == match csr
      case CsrMideleg => h.interrupts.delegate
      case CsrMie => h.interrupts.mie
      case CsrSie => h.interrupts.mie * h.interrupts.delegate
      case CsrMip => h.interrupts.mip * ALL
      case CsrSip => h.interrupts.mip * h.interrupts.delegate
      case CsrMedeleg => h.trap.medeleg
      case CsrMenvcfgh => h.envcfg.menvcfgh
      case _ => h.envcfg.menvcfg
  {
    hide Aligned, BitsOf, NumberOf, Statuses.Good, TrapRegisters.Good, InterruptRegisters.Good, IsWord;
    InsideAWord(h);
    BitsOfNumber(match csr
      case CsrMideleg => h.interrupts.delegate
      case CsrMie => h.interrupts.mie
      case CsrSie => h.interrupts.mie * h.interrupts.delegate
      case CsrMip => h.interrupts.mip
      case CsrSip => h.interrupts.mip * h.interrupts.delegate
      case CsrMedeleg => h.trap.medeleg
      case CsrMenvcfgh => h.envcfg.menvcfgh
      case _ => h.envcfg.menvcfg);
  }

  lemma InsideAWord(h: Hart)
    requires GoodHart(h)
    ensures var s := h.interrupts;
      && s.delegate * ALL == s.delegate && s.mie * ALL == s.mie && s.mie * s.delegate * ALL == s.mie * s.delegate
      && s.mip * s.delegate * ALL == s.mip * s.delegate && h.trap.medeleg * ALL == h.trap.medeleg
      && h.envcfg.menvcfg * ALL == h.envcfg.menvcfg && h.envcfg.menvcfgh * ALL == h.envcfg.menvcfgh
  {
    hide Aligned, Statuses.Good;
  }

  /** sstatus reads as mstatus without the bits of machine mode. */
  lemma StatusReads(h: Hart)
    requires GoodHart(h) && h.privilege.Machine?
    ensures forall csr :: csr in STATUS_REGISTERS ==> ReadCsr(h, csr).Some?
    ensures
      && BitsOf(ReadCsr(h, CsrMstatus).value) == Mstatus(h.status)
      && BitsOf(ReadCsr(h, CsrMstatush).value) == Mstatush(h.status)
      && BitsOf(ReadCsr(h, CsrSstatus).value) == Mstatus(h.status) - {3, 7, 11, 12, 17, 20, 21, 22}
  {
    hide Aligned, BitsOf, NumberOf, Mstatus, Mstatush, Sstatus, ReadTvec, CauseWord, ReadSatp, Statuses.Good;
    StatusWords(h.status);
    BitsOfNumber(Mstatus(h.status));
    BitsOfNumber(Mstatush(h.status));
    BitsOfNumber(Sstatus(h.status));
  }

  lemma StatusWords(s: Status)
    ensures Mstatus(s) <= ALL && Mstatush(s) <= ALL && Sstatus(s) == Mstatus(s) - {3, 7, 11, 12, 17, 20, 21, 22}
  {
    hide StatusBit;
  }

  lemma BitsOfNumber(b: Bits)
    ensures BitsOf(NumberOf(b)) == b * ALL
  {
    BitsOfNumberFrom(b, 0, 32);
  }

  lemma {:induction false} BitsOfNumberFrom(b: Bits, i: nat, width: nat)
    ensures BitsFrom(NumberFrom(b, i, width), i) == set k | k in b && i <= k < i + width
    decreases width
  {
    if width > 0 {
      BitsOfNumberFrom(b, i + 1, width - 1);
    }
  }

  /** csrrw, csrrs and csrrc, and their forms with an immediate: the old value goes to the destination, and
      the register is replaced, or gets or loses the bits of the operand. */
  lemma RegisterInstructions(h: Hart, i: Instruction)
    requires GoodHart(h) && (i.CsrReg? || i.CsrImm?) && ReadCsr(h, i.csr).Some?
    requires i.csr in {CsrSscratch, CsrMscratch, CsrStval, CsrMtval, CsrMtinst, CsrMtval2}
    ensures |h.x| == 32
    ensures var before, done := ReadCsr(h, i.csr).value, Execute(h, i);
      var operand := BitsOf(if i.CsrReg? then h.x[i.src] else i.immediate);
      && done.exception.None? && GoodHart(done.hart) && ReadCsr(done.hart, i.csr).Some?
      && done.hart.x == (if i.dest == 0 then h.x else h.x[i.dest := before])
      && BitsOf(ReadCsr(done.hart, i.csr).value) == match i.csrOp
           case ReadWrite => operand
           case ReadSet => BitsOf(before) + operand
           case ReadClear => BitsOf(before) - operand
  {
    hide BitsOf, ReadCsr, WriteCsr, GoodHart, ExecuteCsr;
    GoodRegisters(h);
    BitsOfZero();
    match i
    case CsrReg(op, dest, csr, src) =>
      RegisterInstruction(h, op, dest, csr, if op == ReadWrite || src != 0 then Some(h.x[src]) else None);
    case CsrImm(op, dest, csr, immediate) =>
      RegisterInstruction(h, op, dest, csr, if op == ReadWrite || immediate != 0 then Some(immediate) else None);
    case _ =>
  }

  lemma GoodRegisters(h: Hart)
    requires GoodHart(h)
    ensures |h.x| == 32 && h.x[0] == 0
  {
  }

  lemma BitsOfZero()
    ensures BitsOf(0) == {}
  {
  }

  lemma RegisterInstruction(h: Hart, op: CsrOp, dest: Specifier, csr: Csr, src: Option<u32>)
    requires GoodHart(h) && ReadCsr(h, csr).Some? && (op.ReadWrite? ==> src.Some?)
    requires csr in {CsrSscratch, CsrMscratch, CsrStval, CsrMtval, CsrMtinst, CsrMtval2}
    ensures |h.x| == 32
    ensures var before, done := ReadCsr(h, csr).value, ExecuteCsr(h, op, dest, csr, src);
      && done.exception.None? && GoodHart(done.hart) && ReadCsr(done.hart, csr).Some?
      && done.hart.x == (if dest == 0 then h.x else h.x[dest := before])
      && BitsOf(ReadCsr(done.hart, csr).value) == match op
          case ReadWrite => BitsOf(src.value)
          case ReadSet => if src.Some? then BitsOf(before) + BitsOf(src.value) else BitsOf(before)
          case ReadClear => if src.Some? then BitsOf(before) - BitsOf(src.value) else BitsOf(before)
  {
    hide GoodHart, BitsOf, MergeWord, ReadCsr, WriteCsr;
    ExecuteCsrKeeps(h, op, dest, csr, src);
    GoodRegisters(h);
    var before := ReadCsr(h, csr).value;
    ResultKeeps(h, dest, before);
    var g := if op != ReadWrite || dest != 0 then h.(x := SetX(h.x, dest, before)) else h;
    if src.Some? {
      MergedBits(before, src.value);
      PlainWrite(h, g, csr, match op case ReadWrite => BitsOf(src.value) case ReadSet => ALL case ReadClear => {},
                 if op == ReadWrite then ALL else BitsOf(src.value));
    } else {
      PlainRead(h, g, csr);
    }
  }

  lemma PlainRead(h: Hart, g: Hart, csr: Csr)
    requires GoodHart(h) && GoodHart(g) && g == h.(x := g.x)
    ensures ReadCsr(Next(g).hart, csr) == ReadCsr(h, csr)
  {
    hide Aligned, Statuses.Good, TrapRegisters.Good, InterruptRegisters.Good, IsWord;
    NextKeeps(g);
  }

  lemma PlainWrite(h: Hart, g: Hart, csr: Csr, value: Bits, mask: Bits)
    requires GoodHart(h) && GoodHart(g) && g == h.(x := g.x) && ReadCsr(h, csr).Some?
    requires csr in {CsrSscratch, CsrMscratch, CsrStval, CsrMtval, CsrMtinst, CsrMtval2}
    ensures var t := WriteCsr(g, csr, value, mask);
      && t.Some? && GoodHart(Next(t.value).hart) && t.value.x == g.x
      && ReadCsr(Next(t.value).hart, csr) == Some(MergeWord(ReadCsr(h, csr).value, value, mask))
  {
    hide Aligned, Statuses.Good, TrapRegisters.Good, InterruptRegisters.Good, IsWord, MergeWord;
    WriteCsrKeeps(g, csr, value, mask);
    NextKeeps(WriteCsr(g, csr, value, mask).value);
  }

  lemma MergedBits(before: u32, operand: u32)
    ensures BitsOf(MergeWord(before, BitsOf(operand), ALL)) == BitsOf(operand)
    ensures BitsOf(MergeWord(before, ALL, BitsOf(operand))) == BitsOf(before) + BitsOf(operand)
    ensures BitsOf(MergeWord(before, {}, BitsOf(operand))) == BitsOf(before) - BitsOf(operand)
  {
    hide BitsOf, NumberOf;
    WordBits(before);
    WordBits(operand);
    BitsOfNumber(Merge(BitsOf(before), BitsOf(operand), ALL));
    BitsOfNumber(Merge(BitsOf(before), ALL, BitsOf(operand)));
    BitsOfNumber(Merge(BitsOf(before), {}, BitsOf(operand)));
  }

  // ---------- The status registers ----------

  /** Where the single fields lie in mstatus and mstatush. */
  lemma StatusBits(s: Status)
    ensures
      && (1 in Mstatus(s) <==> s.sie) && (3 in Mstatus(s) <==> s.mie) && (5 in Mstatus(s) <==> s.spie)
      && (6 in Mstatus(s) <==> s.ube) && (7 in Mstatus(s) <==> s.mpie) && (8 in Mstatus(s) <==> s.spp)
      && (17 in Mstatus(s) <==> s.mprv) && (18 in Mstatus(s) <==> s.sum) && (19 in Mstatus(s) <==> s.mxr)
      && (20 in Mstatus(s) <==> s.tvm) && (21 in Mstatus(s) <==> s.tw) && (22 in Mstatus(s) <==> s.tsr)
      && (31 in Mstatus(s) <==> s.sd) && (4 in Mstatush(s) <==> s.sbe) && (5 in Mstatush(s) <==> s.mbe)
  {
    hide StatusBit, ExtensionLow, ExtensionHigh, LevelLow, LevelHigh;
    MstatusBits(s);
    SingleBits(s);
  }

  /** Where the pairs of bits lie, the lower bit first. */
  lemma StatusPairs(s: Status)
    ensures
      && (9 in Mstatus(s) <==> s.vs == Initial || s.vs == Dirty)
      && (10 in Mstatus(s) <==> s.vs == Clean || s.vs == Dirty)
      && (11 in Mstatus(s) <==> s.mpp == RawSupervisor || s.mpp == RawMachine)
      && (12 in Mstatus(s) <==> s.mpp == RawReserved || s.mpp == RawMachine)
      && (13 in Mstatus(s) <==> s.fs == Initial || s.fs == Dirty)
      && (14 in Mstatus(s) <==> s.fs == Clean || s.fs == Dirty)
      && (15 in Mstatus(s) <==> s.xs == Initial || s.xs == Dirty)
      && (16 in Mstatus(s) <==> s.xs == Clean || s.xs == Dirty)
  {
    hide StatusBit;
    MstatusBits(s);
    BitsOfPairs(s);
  }

  /** A write of mstatus can set a single bit, if that is set in the value and in the mask, and clear none. */
  lemma StatusWrites(s: Status, value: Bits, mask: Bits)
    requires Statuses.Good(s)
    ensures var t := WriteMstatus(s, value, mask);
      && (t.sie <==> s.sie || {1} <= value * mask) && (t.mie <==> s.mie || {3} <= value * mask)
      && (t.spie <==> s.spie || {5} <= value * mask) && (t.ube <==> s.ube || {6} <= value * mask)
      && (t.mpie <==> s.mpie || {7} <= value * mask) && (t.spp <==> s.spp || {8} <= value * mask)
      && (t.mprv <==> s.mprv || {17} <= value * mask) && (t.sum <==> s.sum || {18} <= value * mask)
      && (t.mxr <==> s.mxr || {19} <= value * mask) && (t.tvm <==> s.tvm || {20} <= value * mask)
      && (t.tw <==> s.tw || {21} <= value * mask) && (t.tsr <==> s.tsr || {22} <= value * mask)
      && t.xs == s.xs && t.sbe == s.sbe && t.mbe == s.mbe
  {
    hide WriteMstatus, NewExtension, NewLevel, Statuses.Good;
    MstatusFields(s, value, mask);
  }

  /** A pair of bits is written under the mask if the value has one of them; the reserved level is ignored. */
  lemma PairWrites(s: Status, value: Bits, mask: Bits)
    requires Statuses.Good(s)
    ensures var t := WriteMstatus(s, value, mask);
      && (if {9, 10} !! value then t.vs == s.vs else
            && (t.vs in {Initial, Dirty} <==> if 9 in mask then 9 in value else s.vs in {Initial, Dirty})
            && (t.vs in {Clean, Dirty} <==> if 10 in mask then 10 in value else s.vs in {Clean, Dirty}))
      && (if {13, 14} !! value then t.fs == s.fs else
            && (t.fs in {Initial, Dirty} <==> if 13 in mask then 13 in value else s.fs in {Initial, Dirty})
            && (t.fs in {Clean, Dirty} <==> if 14 in mask then 14 in value else s.fs in {Clean, Dirty}))
      && (t.sd <==> Dirty in {t.vs, t.fs, t.xs})
    ensures var t := WriteMstatus(s, value, mask);
      if {11, 12} !! value then t.mpp == s.mpp
      else
        var low := if 11 in mask then 11 in value else s.mpp in {RawSupervisor, RawMachine};
        var high := if 12 in mask then 12 in value else s.mpp == RawMachine;
        t.mpp == if low && high then RawMachine else if low then RawSupervisor else if high then s.mpp else RawUser
  {
    hide WriteMstatus, NewBit, Statuses.Good;
    MstatusFields(s, value, mask);
    ReservedNever(s);
  }

  lemma ReservedNever(s: Status)
    requires Statuses.Good(s)
    ensures !s.mpp.RawReserved?
  {
  }

  /** A write of sstatus changes the fields of supervisor mode as a write of mstatus does, and no other. */
  lemma SupervisorStatusWrites(s: Status, value: Bits, mask: Bits)
    requires Statuses.Good(s)
    ensures var t := WriteSstatus(s, value, mask);
      && (t.sie <==> s.sie || {1} <= value * mask) && (t.spie <==> s.spie || {5} <= value * mask)
      && (t.ube <==> s.ube || {6} <= value * mask) && (t.spp <==> s.spp || {8} <= value * mask)
      && (t.sum <==> s.sum || {18} <= value * mask) && (t.mxr <==> s.mxr || {19} <= value * mask)
      && t.vs == WriteMstatus(s, value, mask).vs && t.fs == WriteMstatus(s, value, mask).fs
      && t.mie == s.mie && t.mpie == s.mpie && t.mpp == s.mpp && t.mprv == s.mprv && t.tvm == s.tvm && t.tw == s.tw
      && t.tsr == s.tsr && t.xs == s.xs && t.sbe == s.sbe && t.mbe == s.mbe
  {
    hide WriteMstatus, Statuses.Good, Has, SSTATUS_MASK, MaskedExtension, MaskedLevel;
    StatusWrites(s, value, mask * SSTATUS_MASK);
    MstatusFields(s, value, mask);
    MstatusFields(s, value, mask * SSTATUS_MASK);
    SupervisorBits(s, value, mask);
    SstatusIsConfined(s, value, mask);
  }

  lemma SupervisorBits(s: Status, value: Bits, mask: Bits)
    ensures forall b :: b in {1, 5, 6, 8, 18, 19} ==> ({b} <= value * (mask * SSTATUS_MASK) <==> {b} <= value * mask)
    ensures MaskedExtension(s.vs, value, mask * SSTATUS_MASK, VS0, VS1) == MaskedExtension(s.vs, value, mask, VS0, VS1)
    ensures MaskedExtension(s.fs, value, mask * SSTATUS_MASK, FS0, FS1) == MaskedExtension(s.fs, value, mask, FS0, FS1)
  {
  }

  /** Which status register a write goes to. */
  lemma StatusRegisters(h: Hart, csr: Csr, value: Bits, mask: Bits)
    requires GoodHart(h) && csr in STATUS_REGISTERS && WriteCsr(h, csr, value, mask).Some?
    ensures WriteCsr(h, csr, value, mask).value.status == match csr
      case CsrSstatus => WriteSstatus(h.status, value, mask)
      case CsrMstatus => WriteMstatus(h.status, value, mask)
      case _ => h.status.(sbe := if 4 in mask then 4 in value else h.status.sbe,
                          mbe := if 5 in mask then 5 in value else h.status.mbe)
  {
    hide Aligned, Statuses.Good, TrapRegisters.Good, InterruptRegisters.Good, WriteMstatus, WriteSstatus;
  }
}
