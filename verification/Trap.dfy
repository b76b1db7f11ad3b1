/** The trap registers of a hart: vectors, program counters, causes, delegation, values and satp. */
module TrapRegisters {
  import opened Integers
  import opened Options
  import opened Words
  import opened InterruptRegisters

  datatype VectorMode = Direct | Vectored

  datatype Exception =
    | InstructionAddressMisaligned(address: u32)
    | InstructionAccessFault(address: u32)
    | IllegalInstruction(raw: Option<u32>)
    | Breakpoint
    | LoadAddressMisaligned(address: u32)
    | LoadAccessFault(address: u32)
    | StoreOrAmoAddressMisaligned(address: u32)
    | StoreOrAmoAccessFault(address: u32)
    | EnvironmentCallFromU
    | EnvironmentCallFromS
    | EnvironmentCallFromM
    | InstructionPageFault(address: u32)
    | LoadPageFault(address: u32)
    | StoreOrAmoPageFault(address: u32)

  function ExceptionCode(e: Exception): nat {
    match e
    case InstructionAddressMisaligned(_) => 0
    case InstructionAccessFault(_) => 1
    case IllegalInstruction(_) => 2
    case Breakpoint => 3
    case LoadAddressMisaligned(_) => 4
    case LoadAccessFault(_) => 5
    case StoreOrAmoAddressMisaligned(_) => 6
    case StoreOrAmoAccessFault(_) => 7
    case EnvironmentCallFromU => 8
    case EnvironmentCallFromS => 9
    case EnvironmentCallFromM => 11
    case InstructionPageFault(_) => 12
    case LoadPageFault(_) => 13
    case StoreOrAmoPageFault(_) => 15
  }

  const EXCEPTION_CODES: Bits := {0, 1, 2, 3, 4, 5, 6, 7, 8, 9, 11, 12, 13, 15}

  /** None stands for an unknown cause, as after a reset or a non-maskable interrupt. */
  datatype Cause = ByException(exception: Option<Exception>) | ByInterrupt(interrupt: Option<Interrupt>)

  datatype CauseCode = OfException(code: Option<nat>) | OfInterrupt(interrupt: Option<Interrupt>)

  function CodeOf(c: Cause): CauseCode {
    match c
    case ByException(None) => OfException(None)
    case ByException(Some(e)) => OfException(Some(ExceptionCode(e)))
    case ByInterrupt(i) => OfInterrupt(i)
  }

  datatype Satp = Satp(sv32: bool, asid: nat, ppn: nat)

  datatype Trap = Trap(mBase: u32, mMode: VectorMode, sBase: u32, sMode: VectorMode, mscratch: u32, sscratch: u32,
    mepc: u32, sepc: u32,
                       lastM: Cause, mcauseOverride: Option<CauseCode>, lastS: Cause, scauseOverride: Option<CauseCode>,
                       medeleg: Bits, mtval: u32, mtval2: u32, mtinst: u32, stval: u32, satp: Satp)

  const RESET: Trap :=
    Trap(0, Direct, 0, Direct, 0, 0, 0, 0, ByException(None), None, ByException(None), None, {}, 0, 0, 0, 0,
      Satp(false, 0, 0))

  // ---------- Register writes ----------

  function MergeWord(before: u32, value: Bits, mask: Bits): u32 {
    NumberOf(Merge(BitsOf(before), value, mask))
  }

  function MergeAligned(before: u32, value: Bits, mask: Bits): u32 {
    NumberOf((BitsOf(before) - mask) + (value * mask - {0, 1}))
  }

  function ReadTvec(base: u32, mode: VectorMode): u32
    requires Aligned(base)
  {
    base + if mode.Direct? then 0 else 1
  }

  /** A reserved mode leaves the register as it was. */
  function WriteTvec(base: u32, mode: VectorMode, value: Bits, mask: Bits): (u32, VectorMode)
    requires Aligned(base)
  {
    var tvec := MergeWord(ReadTvec(base, mode), value, mask);
    if tvec % 4 == 0 then (tvec, Direct) else if tvec % 4 == 1 then (tvec - 1, Vectored) else (base, mode)
  }

  function CodeWord(c: CauseCode): nat {
    match c
    case OfException(None) => 0
    case OfException(Some(code)) => code
    case OfInterrupt(None) => 0x8000_0000
    case OfInterrupt(Some(i)) => 0x8000_0000 + Code(i)
  }

  function ReadCause(last: Cause, override: Option<CauseCode>): nat {
    CodeWord(if override.Some? then override.value else CodeOf(last))
  }

  function InterruptFrom(code: nat): Option<Interrupt> {
    if code == 1 then Some(SupervisorSoftware) else if code == 3 then Some(MachineSoftware) else if code == 5
      then Some(SupervisorTimer)
    else if code == 7 then Some(MachineTimer) else if code == 9 then Some(SupervisorExternal) else if code == 11
      then Some(MachineExternal)
    else None
  }

  /** The cause that a word encodes, if it is one that can occur. */
  function CauseFrom(word: u32): Option<CauseCode> {
    if word == 0 then Some(OfException(None))
    else if word < 0x8000_0000 then (if word in EXCEPTION_CODES then Some(OfException(Some(word))) else None)
    else if word == 0x8000_0000 then Some(OfInterrupt(None))
    else
      match InterruptFrom(word - 0x8000_0000)
      case Some(i) => Some(OfInterrupt(Some(i)))
      case None => None
  }

  /** A cause that cannot occur leaves the register as it was. */
  function WriteCause(last: Cause, override: Option<CauseCode>, value: Bits, mask: Bits): Option<CauseCode> {
    match CauseFrom(MergeWord(CauseWord(last, override), value, mask))
    case Some(c) => Some(c)
    case None => override
  }

  function CauseWord(last: Cause, override: Option<CauseCode>): u32 {
    ReadCause(last, override) % 0x1_0000_0000
  }

  function ReadSatp(s: Satp): nat {
    (if s.sv32 then 0x8000_0000 else 0) + s.asid * 0x40_0000 + s.ppn
  }

  function SatpFrom(word: u32): Satp {
    Satp(word >= 0x8000_0000, word / 0x40_0000 % 512, word % 0x40_0000)
  }

  function WriteMedeleg(before: Bits, value: Bits, mask: Bits): Bits {
    (before - mask) + (value * mask * EXCEPTION_CODES)
  }

  // ---------- Properties ----------

  /** Both vectors and both saved program counters are word-aligned, only exceptions that exist are
      delegated, and satp holds what fits its fields. */
  predicate Good(t: Trap) {
    && Aligned(t.mBase) && Aligned(t.sBase) && Aligned(t.mepc) && Aligned(t.sepc)
    && t.medeleg <= EXCEPTION_CODES && t.satp.asid < 512 && t.satp.ppn < 0x40_0000
  }

  lemma MergeAlignedIsAligned(before: u32, value: Bits, mask: Bits)
    requires Aligned(before)
    ensures Aligned(MergeAligned(before, value, mask))
  {
    hide Aligned, BitsOf, NumberOf;
    AlignedEitherWay(before, (BitsOf(before) - mask) + (value * mask - {0, 1}));
  }

  lemma WriteTvecIsAligned(base: u32, mode: VectorMode, value: Bits, mask: Bits)
    requires Aligned(base)
    ensures Aligned(WriteTvec(base, mode, value, mask).0)
  {
    hide MergeWord, ReadTvec;
  }

  /** A legal value that is written to a vector register in whole is read back. */
  lemma TvecRoundTrip(base: u32, mode: VectorMode, value: u32)
    requires Aligned(base) && value % 4 < 2
    ensures var (b, m) := WriteTvec(base, mode, BitsOf(value), ALL); Aligned(b) && ReadTvec(b, m) == value
  {
    hide MergeWord, BitsOf;
    WholeWrite(ReadTvec(base, mode), value);
  }

  lemma WholeWrite(before: u32, value: u32)
    ensures MergeWord(before, BitsOf(value), ALL) == value
  {
    TwoTo32();
    BitsBelow(value, 0, 32);
    BitsBelow(before, 0, 32);
    assert Merge(BitsOf(before), BitsOf(value), ALL) == BitsOf(value);
    NumberOfBits(value);
  }

  lemma {:induction false} BitsBelow(n: nat, i: nat, width: nat)
    requires n < Pow2(width)
    ensures forall k :: k in BitsFrom(n, i) ==> k < i + width
    decreases width
  {
    if n > 0 {
      BitsBelow(n / 2, i + 1, width - 1);
    }
  }

  /** A word that is written to satp in whole is read back. */
  lemma SatpRoundTrip(word: u32)
    ensures ReadSatp(SatpFrom(word)) == word
  {
  }

  /** A possible cause that is written in whole is read back; any other is ignored. */
  lemma CauseRoundTrip(last: Cause, override: Option<CauseCode>, word: u32)
    ensures CauseFrom(word).Some? ==> ReadCause(last, WriteCause(last, override, BitsOf(word), ALL)) == word
    ensures CauseFrom(word).None? ==> WriteCause(last, override, BitsOf(word), ALL) == override
  {
    hide BitsOf, MergeWord, CodeWord, ReadCause, CauseFrom;
    WholeWrite(CauseWord(last, override), word);
    WordOfCause(last, word);
  }

  lemma WordOfCause(last: Cause, word: u32)
    ensures CauseFrom(word).Some? ==> ReadCause(last, CauseFrom(word)) == word
  {
  }
}
