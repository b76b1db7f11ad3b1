/** The hart as an object whose methods update its registers one after the other; each of them does
    what the state machine says. */
module Cores {
  import opened Integers
  import opened Options
  import opened Privileges
  import opened Words
  import opened Statuses
  import opened InterruptRegisters
  import opened TrapRegisters
  import opened Harts
  import opened HartProperties

  class Core {
    var x: seq<u32>
    var pc: u32
    var privilege: Privilege
    var status: Status
    var trap: Trap
    var interrupts: Interrupts
    var envcfg: Envcfg
    const vectors: Vectors

    ghost function State(): Hart
      reads this
    {
      Hart(x, pc, privilege, status, trap, interrupts, envcfg)
    }

    ghost predicate Valid()
      reads this
    {
      GoodHart(State()) && Aligned(vectors.reset) && Aligned(vectors.nmi)
    }

    constructor (vectors: Vectors)
      requires Aligned(vectors.reset) && Aligned(vectors.nmi)
      ensures Valid() && State() == StartState(vectors) && this.vectors == vectors
    {
      this.vectors := vectors;
      x, pc, privilege := StartState(vectors).x, vectors.reset, Machine;
      status, trap, interrupts, envcfg := Statuses.RESET, TrapRegisters.RESET, InterruptRegisters.RESET, NO_ENVCFG;
      new;
      InitialIsGood(vectors);
    }

    method TakeTrap(cause: Cause)
      requires Valid()
      modifies this
      ensures Valid() && State() == Harts.TakeTrap(old(State()), cause)
    {
      hide Aligned, GoodHart, ShouldDelegate, TrapValue, HandlerAddress, EnterSupervisor, EnterMachine;
      TrapKeeps(State(), cause);
      var toSupervisor := !privilege.Machine?
        && ShouldDelegate(Hart(x, pc, privilege, status, trap, interrupts, envcfg), CodeOf(cause));
      if toSupervisor {
        trap := SaveSupervisor(trap, cause, pc);
        pc := HandlerAddress(trap.sBase, trap.sMode, cause);
        status := EnterSupervisor(status, privilege);
        privilege := Supervisor;
      } else {
        trap := SaveMachine(trap, cause, pc);
        pc := HandlerAddress(trap.mBase, trap.mMode, cause);
        status := EnterMachine(status, privilege);
        privilege := Machine;
      }
    }

    method Sret() returns (exception: Option<Exception>)
      requires Valid()
      modifies this
      ensures Valid() && Executed(State(), exception) == Harts.Sret(old(State()))
    {
      hide Aligned, GoodHart, LeaveSupervisor;
      ReturnsKeep(State());
      if Rank(privilege) < Rank(Supervisor) {
        return Some(IllegalInstruction(None));
      }
      if status.tsr {
        return Some(IllegalInstruction(None));
      }
      var pp := Spp(status);
      status := LeaveSupervisor(status);
      privilege := pp;
      pc := trap.sepc;
      exception := None;
    }

    method Mret() returns (exception: Option<Exception>)
      requires Valid()
      modifies this
      ensures Valid() && Executed(State(), exception) == Harts.Mret(old(State()))
    {
      hide Aligned, GoodHart, Statuses.Good, TrapRegisters.Good, InterruptRegisters.Good, LeaveMachine;
      PartsOfGood(State());
      LevelOfGood(status);
      ReturnsKeep(State());
      if !privilege.Machine? {
        return Some(IllegalInstruction(None));
      }
      var pp := Mpp(status);
      status := LeaveMachine(status);
      privilege := pp;
      pc := trap.mepc;
      exception := None;
    }

    method CheckForInterrupts() returns (taken: bool)
      requires Valid()
      modifies this
      ensures Valid() && State() == Harts.CheckForInterrupts(old(State())) && taken == HighestReady(old(State())).Some?
    {
      hide GoodHart, Aligned, HighestReady, Harts.TakeTrap;
      var ready := HighestReady(Hart(x, pc, privilege, status, trap, interrupts, envcfg));
      match ready
      case Some(i) =>
        TakeTrap(ByInterrupt(Some(i)));
        taken := true;
      case None =>
        taken := false;
    }

    method ReadCsr(csr: Csr) returns (value: Option<u32>)
      requires Valid()
      ensures value == Harts.ReadCsr(State(), csr)
    {
      value := Harts.ReadCsr(Hart(x, pc, privilege, status, trap, interrupts, envcfg), csr);
    }

    method WriteCsr(csr: Csr, value: Bits, mask: Bits) returns (ok: bool)
      requires Valid()
      modifies this
      ensures Valid()
      ensures ok == Harts.WriteCsr(old(State()), csr, value, mask).Some?
      ensures State() == if ok then Harts.WriteCsr(old(State()), csr, value, mask).value else old(State())
    {
      hide Aligned, GoodHart, Statuses.Good, InterruptRegisters.Good, TrapRegisters.Good, WriteStatusCsr, WriteTrapCsr,
           WriteInterruptCsr, WriteEnvcfgCsr;
      PartsOfGood(State());
      ghost var h := State();
      if WriteFails(Hart(x, pc, privilege, status, trap, interrupts, envcfg), csr) {
        return false;
      }
      status := WriteStatusCsr(status, csr, value, mask);
      trap := WriteTrapCsr(trap, csr, value, mask);
      interrupts := WriteInterruptCsr(interrupts, csr, value, mask);
      envcfg := WriteEnvcfgCsr(envcfg, csr, value, mask);
      WriteCsrKeeps(h, csr, value, mask);
      ok := true;
    }

    /** An atomic access to a register. The privilege level is the one before the access. */
    method CsrOperation(op: CsrOp, dest: Specifier, csr: Csr, src: Option<u32>) returns (exception: Option<Exception>)
      requires Valid()
      modifies this
      ensures Valid() && Executed(State(), exception) == ExecuteCsr(old(State()), op, dest, csr, src)
    {
      hide Aligned, GoodHart, Statuses.Good, InterruptRegisters.Good, TrapRegisters.Good, Harts.ReadCsr,
           Harts.WriteCsr, BitsOf;
      ghost var h := State();
      LengthOfGood(h);
      ExecuteCsrKeeps(h, op, dest, csr, src);
      if op != ReadWrite || dest != 0 {
        var before := ReadCsr(csr);
        if before.None? {
          return Some(IllegalInstruction(None));
        }
        ResultKeeps(h, dest, before.value);
        x := SetX(x, dest, before.value);
        assert State() == h.(x := SetX(h.x, dest, before.value));
      }
      if src.Some? {
        var value := match op case ReadWrite => BitsOf(src.value) case ReadSet => ALL case ReadClear => {};
        var mask := if op == ReadWrite then ALL else BitsOf(src.value);
        var ok := WriteCsr(csr, value, mask);
        if !ok {
          return Some(IllegalInstruction(None));
        }
      }
      pc := WrappingAdd(pc, 4);
      exception := None;
    }

    /** Jumps to `target` and links; a target that is not word-aligned changes nothing. */
    method JumpTo(dest: Specifier, target: u32) returns (exception: Option<Exception>)
      requires Valid()
      modifies this
      ensures Valid() && Executed(State(), exception) == Jump(old(State()), dest, target)
    {
      hide Aligned, Statuses.Good, InterruptRegisters.Good, TrapRegisters.Good;
      JumpKeeps(State(), dest, target);
      if !Aligned(target) {
        return Some(InstructionAddressMisaligned(target));
      }
      var oldPc := pc;
      pc := target;
      x := SetX(x, dest, WrappingAdd(oldPc, 4));
      exception := None;
    }

    /** What devices do with the interrupt lines while memory is accessed. */
    method DriveLines(lines: seq<LineChange>)
      requires Valid()
      modifies this`interrupts
      ensures Valid() && State() == Driven(old(State()), lines)
    {
      hide Aligned, Statuses.Good, TrapRegisters.Good, InterruptRegisters.Good, Raise, Lower, IsWord;
      ghost var h := State();
      DriveNothing(interrupts);
      for k := 0 to |lines|
        invariant interrupts == Drive(h.interrupts, lines[..k])
      {
        assert lines[..k + 1][..k] == lines[..k];
        match lines[k]
        case Up(i) => interrupts := Raise(interrupts, i);
        case Down(i) => interrupts := Lower(interrupts, i);
      }
      assert lines[..|lines|] == lines;
      DriveKeeps(h.interrupts, lines);
    }

    /** Sets the destination and goes on to the next instruction. */
    method Finish(dest: Specifier, value: u32) returns (exception: Option<Exception>)
      requires Valid()
      modifies this`x, this`pc
      ensures Valid() && Executed(State(), exception) == Result(old(State()), dest, value)
    {
      hide Aligned, Statuses.Good, TrapRegisters.Good, InterruptRegisters.Good, IsWord;
      ResultKeeps(State(), dest, value);
      NextKeeps(State().(x := SetX(x, dest, value)));
      x := SetX(x, dest, value);
      pc := WrappingAdd(pc, 4);
      exception := None;
    }

    /** Goes on to the next instruction. */
    method IncrementPc() returns (exception: Option<Exception>)
      requires Valid()
      modifies this`pc
      ensures Valid() && Executed(State(), exception) == Next(old(State()))
    {
      hide Aligned, GoodHart;
      NextKeeps(State());
      pc := WrappingAdd(pc, 4);
      exception := None;
    }

    method LoadOperation(dest: Specifier, address: u32,
                         answer: Answer<ReadResult>) returns (exception: Option<Exception>)
      requires Valid()
      modifies this
      ensures Valid() && |old(x)| == 32 && Executed(State(), exception) == LoadFrom(old(State()), dest, address, answer)
    {
      hide Aligned, GoodHart, Driven, Result;
      LengthOfGood(State());
      DriveLines(answer.lines);
      LengthOfGood(State());
      match answer.result
      case Value(v) => exception := Finish(dest, v);
      case ReadError(e) => exception := Some(LoadException(e, address));
    }

    method StoreOperation(address: u32, answer: Answer<Option<MemoryError>>) returns (exception: Option<Exception>)
      requires Valid()
      modifies this
      ensures Valid() && Executed(State(), exception) == StoreTo(old(State()), address, answer)
    {
      hide Aligned, GoodHart, Driven, Next;
      DriveLines(answer.lines);
      match answer.result
      case None => exception := IncrementPc();
      case Some(e) => exception := Some(StoreException(e, address));
    }

    /** A store that notes its success in `dest` before it is carried out. */
    method ConditionalStore(i: Instruction) returns (exception: Option<Exception>)
      requires Valid() && i.StoreConditional?
      modifies this
      ensures Valid() && |old(x)| == 32 && Executed(State(), exception) == ExecuteMemory(old(State()), i)
    {
      hide Aligned, GoodHart, StoreTo;
      LengthOfGood(State());
      ghost var h := State();
      var value := x[i.src];
      var address := x[i.addr];
      if !Aligned(address) {
        exception := StoreOperation(address, Answer(Some(MisalignedAccess), []));
      } else {
        ResultKeeps(h, i.dest, 0);
        x := SetX(x, i.dest, 0);
        assert State() == h.(x := SetX(h.x, i.dest, 0));
        exception := StoreOperation(address, i.write(address, value));
      }
    }

    /** An atomic access to memory. */
    method AmoOperation(i: Instruction) returns (exception: Option<Exception>)
      requires Valid() && i.Amo?
      modifies this
      ensures Valid() && |old(x)| == 32 && Executed(State(), exception) == ExecuteAmo(old(State()), i)
    {
      hide Aligned, GoodHart, Driven, Result;
      LengthOfGood(State());
      var address := x[i.addr];
      if !Aligned(address) {
        return Some(LoadAddressMisaligned(address));
      }
      var source := x[i.src];
      var answer := i.read(address);
      DriveLines(answer.lines);
      if answer.result.ReadError? {
        return Some(AmoException(answer.result.error, address));
      }
      var written := i.write(address, i.op2(answer.result.value, source));
      DriveLines(written.lines);
      LengthOfGood(State());
      if written.result.Some? {
        return Some(AmoException(written.result.value, address));
      }
      exception := Finish(i.dest, answer.result.value);
    }

    /** Takes a branch; a target that is not word-aligned changes nothing. */
    method BranchOperation(target: u32) returns (exception: Option<Exception>)
      requires Valid()
      modifies this`pc
      ensures Valid() && Executed(State(), exception) == BranchTo(old(State()), target)
    {
      hide Aligned, GoodHart;
      JumpKeeps(State(), 0, target);
      if !Aligned(target) {
        return Some(InstructionAddressMisaligned(target));
      }
      pc := target;
      exception := None;
    }

    method MemoryOperation(i: Instruction) returns (exception: Option<Exception>)
      requires Valid() && IsMemory(i)
      modifies this
      ensures Valid() && |old(x)| == 32 && Executed(State(), exception) == ExecuteMemory(old(State()), i)
    {
      hide Aligned, GoodHart, LoadFrom, StoreTo, ExecuteAmo;
      LengthOfGood(State());
      match i
      case Load(dest, base, offset, read) =>
        var address := WrappingAdd(x[base], offset);
        exception := LoadOperation(dest, address, read(address));
      case Store(src, base, offset, write) =>
        var address := WrappingAdd(x[base], offset);
        exception := StoreOperation(address, write(address, x[src]));
      case LoadReserved(dest, addr, read) =>
        var address := x[addr];
        exception := LoadOperation(dest, address, if Aligned(address) then read(address)
          else Answer(ReadError(MisalignedAccess), []));
      case StoreConditional(_, _, _, _) => exception := ConditionalStore(i);
      case Amo(_, _, _, _, _, _) => exception := AmoOperation(i);
    }

    method ExecuteInstruction(i: Instruction) returns (exception: Option<Exception>)
      requires Valid()
      modifies this
      ensures Valid() && Executed(State(), exception) == Execute(old(State()), i)
    {
      hide Aligned, GoodHart, Statuses.Good, InterruptRegisters.Good, TrapRegisters.Good, Harts.Sret, Harts.Mret,
           ExecuteCsr, ExecuteMemory, Jump, BranchTo,
           Result, Next, WrappingAdd, IsWord;
      LengthOfGood(State());
      if IsMemory(i) {
        exception := MemoryOperation(i);
        return;
      }
      match i
      case RegImm(dest, src, op) => exception := Finish(dest, op(x[src]));
      case RegReg(dest, src1, src2, op) => exception := Finish(dest, op(x[src1], x[src2]));
      case Lui(dest, immediate) => exception := Finish(dest, immediate);
      case Auipc(dest, immediate) => exception := Finish(dest, WrappingAdd(pc, immediate));
      case Jal(dest, offset) => exception := JumpTo(dest, WrappingAdd(pc, offset));
      case Jalr(dest, base, offset) =>
        var t := WrappingAdd(x[base], offset);
        exception := JumpTo(dest, t - t % 2);
      case Branch(src1, src2, offset, taken) =>
        if taken(x[src1], x[src2]) {
          exception := BranchOperation(WrappingAdd(pc, offset));
        } else {
          exception := IncrementPc();
        }
      case Fence => exception := IncrementPc();
      case Ecall =>
        exception := Some(match privilege case User => EnvironmentCallFromU case Supervisor => EnvironmentCallFromS
          case Machine => EnvironmentCallFromM);
      case Ebreak => exception := Some(Breakpoint);
      case SretInstruction => exception := Sret();
      case MretInstruction => exception := Mret();
      case Wfi =>
        if !privilege.Machine? && status.tw {
          exception := Some(IllegalInstruction(None));
        } else {
          exception := IncrementPc();
        }
      case SfenceVma =>
        if status.tvm {
          exception := Some(IllegalInstruction(None));
        } else {
          exception := IncrementPc();
        }
      case CsrReg(op, dest, csr, src) =>
        exception := CsrOperation(op, dest, csr, if op == ReadWrite || src != 0 then Some(x[src]) else None);
      case CsrImm(op, dest, csr, immediate) =>
        exception := CsrOperation(op, dest, csr, if op == ReadWrite || immediate != 0 then Some(immediate) else None);
    }

    /** Executes what was fetched; an exception is taken as a trap. */
    method StepWith(fetched: Fetched)
      requires Valid()
      modifies this
      ensures Valid() && State() == Harts.StepWith(old(State()), fetched)
    {
      hide Aligned, GoodHart, Execute, Harts.TakeTrap;
      var exception := None;
      match fetched {
        case Decoded(i) => exception := ExecuteInstruction(i);
        case Failed(e) => exception := Some(e);
      }
      if exception.Some? {
        TakeTrap(ByException(exception));
      }
    }

    /** Takes an interrupt that is ready, or else executes the next instruction. */
    method Step(fetch: u32 -> Answer<Fetched>)
      requires Valid()
      modifies this
      ensures Valid() && State() == Harts.Step(old(State()), fetch)
    {
      hide Aligned, GoodHart, Harts.StepWith, Harts.CheckForInterrupts, HighestReady, Driven;
      ghost var h := State();
      var taken := CheckForInterrupts();
      if taken {
        return;
      }
      NothingTaken(h);
      var answer := fetch(pc);
      DriveLines(answer.lines);
      StepWith(answer.result);
      var _ := CheckForInterrupts();
    }

    method Nmi()
      requires Valid()
      modifies this
      ensures Valid() && State() == Harts.Nmi(old(State()), vectors.nmi)
    {
      hide GoodHart, Aligned;
      EventKeeps(State(), vectors, NonMaskableInterrupt);
      var oldPc := pc;
      pc := vectors.nmi;
      trap := trap.(mepc := oldPc);
      trap := trap.(lastM := ByInterrupt(None), mcauseOverride := None);
      privilege := Machine;
    }

    method Reset()
      requires Valid()
      modifies this
      ensures Valid() && State() == Harts.Reset(old(State()), vectors.reset)
    {
      hide GoodHart, Aligned;
      EventKeeps(State(), vectors, ResetSignal);
      x, pc := Harts.Reset(Hart(x, pc, privilege, status, trap, interrupts, envcfg), vectors.reset).x, vectors.reset;
      trap := trap.(lastM := ByException(None), mcauseOverride := None);
      status := status.(mie := false, mprv := false, mbe := false);
      privilege := Machine;
      envcfg := NO_ENVCFG;
    }
  }

  lemma PartsOfGood(h: Hart)
    requires GoodHart(h)
    ensures Statuses.Good(h.status) && TrapRegisters.Good(h.trap) && InterruptRegisters.Good(h.interrupts)
  {
  }

  lemma LevelOfGood(s: Status)
    requires Statuses.Good(s)
    ensures !s.mpp.RawReserved?
  {
  }

  lemma NothingTaken(h: Hart)
    requires HighestReady(h).None?
    ensures Harts.CheckForInterrupts(h) == h
  {
  }

  /** Every run of the hart goes through the states of the state machine. */
  method RunCore(vectors: Vectors, events: seq<Event>) returns (core: Core)
    requires Aligned(vectors.reset) && Aligned(vectors.nmi)
    ensures core.Valid() && core.State() == Run(vectors, events)
  {
    hide GoodHart, Aligned, Harts.Step, Harts.Nmi, Harts.Reset;
    core := new Core(vectors);
    for k := 0 to |events|
      invariant core.Valid() && core.vectors == vectors && core.State() == Run(vectors, events[..k]) && fresh(core)
    {
      EventKeeps(core.State(), vectors, events[k]);
      match events[k] {
        case Stepped(fetch) => core.Step(fetch);
        case LineChanged(change) => core.interrupts := InterruptRegisters.Apply(core.interrupts, change);
        case NonMaskableInterrupt => core.Nmi();
        case ResetSignal => core.Reset();
      }
      assert events[..k + 1][..k] == events[..k];
    }
    assert events[..|events|] == events;
  }
}
