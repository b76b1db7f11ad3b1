/** The mstatus, mstatush and sstatus registers, by their fields. All other bits are never written. */
module Statuses {
  import opened Privileges
  import opened Words

  /** Two bits that describe the state of an extension. */
  datatype ExtensionStatus = Off | Initial | Clean | Dirty

  /** Two bits that name a privilege level; level 2 is reserved. */
  datatype RawLevel = RawUser | RawSupervisor | RawReserved | RawMachine

  datatype Status = Status(sie: bool, mie: bool, spie: bool, ube: bool, mpie: bool, spp: bool, vs: ExtensionStatus,
    mpp: RawLevel, fs: ExtensionStatus, xs: ExtensionStatus,
                           mprv: bool, sum: bool, mxr: bool, tvm: bool, tw: bool, tsr: bool, sd: bool, sbe: bool,
                           mbe: bool)

  const RESET: Status :=
    Status(false, false, false, false, false, false, Off, RawUser, Off, Off, false, false, false, false, false, false,
      false, false, false)

  // ---------- Bits of a word ----------

  predicate Has(w: Bits, bit: nat) {
    bit in w
  }

  function ExtensionFromU2(low: bool, high: bool): ExtensionStatus {
    if high then (if low then Dirty else Clean) else if low then Initial else Off
  }

  function LevelFromU2(low: bool, high: bool): RawLevel {
    if high then (if low then RawMachine else RawReserved) else if low then RawSupervisor else RawUser
  }

  predicate ExtensionLow(e: ExtensionStatus) {
    e.Initial? || e.Dirty?
  }

  predicate ExtensionHigh(e: ExtensionStatus) {
    e.Clean? || e.Dirty?
  }

  predicate LevelLow(l: RawLevel) {
    l.RawSupervisor? || l.RawMachine?
  }

  predicate LevelHigh(l: RawLevel) {
    l.RawReserved? || l.RawMachine?
  }

  const SIE: nat := 1
  const MIE: nat := 3
  const SPIE: nat := 5
  const UBE: nat := 6
  const MPIE: nat := 7
  const SPP: nat := 8
  const VS0: nat := 9
  const VS1: nat := 10
  const MPP0: nat := 11
  const MPP1: nat := 12
  const FS0: nat := 13
  const FS1: nat := 14
  const XS0: nat := 15
  const XS1: nat := 16
  const MPRV: nat := 17
  const SUM: nat := 18
  const MXR: nat := 19
  const TVM: nat := 20
  const TW: nat := 21
  const TSR: nat := 22
  const SD: nat := 31
  const SBE: nat := 4
  const MBE: nat := 5

  /** 0xFF8D_E777 */
  const SSTATUS_MASK: Bits := ALL - {MIE, MPIE, MPP0, MPP1, MPRV, TVM, TW, TSR}

  predicate StatusBit(s: Status, b: nat) {
    if b == SIE then s.sie else if b == MIE then s.mie else if b == SPIE then s.spie else if b == UBE then s.ube
    else if b == MPIE then s.mpie else if b == SPP then s.spp else if b == VS0 then ExtensionLow(s.vs) else if b == VS1
      then ExtensionHigh(s.vs)
    else if b == MPP0 then LevelLow(s.mpp) else if b == MPP1 then LevelHigh(s.mpp) else if b == FS0
      then ExtensionLow(s.fs)
    else if b == FS1 then ExtensionHigh(s.fs) else if b == XS0 then ExtensionLow(s.xs) else if b == XS1
      then ExtensionHigh(s.xs)
    else if b == MPRV then s.mprv else if b == SUM then s.sum else if b == MXR then s.mxr else if b == TVM then s.tvm
    else if b == TW then s.tw else if b == TSR then s.tsr else b == SD && s.sd
  }

  /** The mstatus word. */
  function Mstatus(s: Status): Bits {
    set b: nat | b < 32 && StatusBit(s, b)
  }

  function Mstatush(s: Status): Bits {
    (if s.sbe then {SBE} else {}) + (if s.mbe then {MBE} else {})
  }

  function Sstatus(s: Status): Bits {
    Mstatus(s) * SSTATUS_MASK
  }

  // ---------- Setters ----------

  function Raw(p: Privilege): RawLevel {
    match p
    case User => RawUser
    case Supervisor => RawSupervisor
    case Machine => RawMachine
  }

  function Mpp(s: Status): Privilege
    requires !s.mpp.RawReserved?
  {
    match s.mpp
    case RawUser => User
    case RawSupervisor => Supervisor
    case RawMachine => Machine
  }

  function Spp(s: Status): Privilege {
    if s.spp then Supervisor else User
  }

  /** A reserved level is ignored. */
  function SetMpp(s: Status, l: RawLevel): Status {
    s.(mpp := if l.RawReserved? then s.mpp else l)
  }

  /** A level above supervisor is ignored. */
  function SetSpp(s: Status, l: RawLevel): Status {
    s.(spp := if l.RawUser? || l.RawSupervisor? then l.RawSupervisor? else s.spp)
  }

  function UpdateSd(s: Status): Status {
    s.(sd := s.fs == Dirty || s.vs == Dirty || s.xs == Dirty)
  }

  function SetFs(s: Status, v: ExtensionStatus): Status {
    UpdateSd(s.(fs := v))
  }

  function SetVs(s: Status, v: ExtensionStatus): Status {
    UpdateSd(s.(vs := v))
  }

  // ---------- Traps and returns ----------

  function EnterSupervisor(s: Status, from: Privilege): Status {
    SetSpp(s.(spie := s.sie, sie := false), Raw(from))
  }

  function EnterMachine(s: Status, from: Privilege): Status {
    SetMpp(s.(mpie := s.mie, mie := false), Raw(from))
  }

  /** The previous privilege level is below machine mode, so that MPRV is cleared. */
  function LeaveSupervisor(s: Status): Status {
    SetSpp(s.(sie := s.spie, spie := true, mprv := false), RawUser)
  }

  function LeaveMachine(s: Status): Status
    requires !s.mpp.RawReserved?
  {
    var t := SetMpp(s.(mie := s.mpie, mpie := true), RawUser);
    t.(mprv := Mpp(s).Machine? && t.mprv)
  }

  // ---------- Writes ----------

  /** The masked bit, or the old one. */
  predicate Masked(before: bool, value: Bits, mask: Bits, bit: nat) {
    if Has(mask, bit) then Has(value, bit) else before
  }

  /** What a write makes of one bit: it is only looked at when the bit is set in the value. */
  predicate NewBit(before: bool, value: Bits, mask: Bits, bit: nat) {
    if Has(value, bit) then Masked(before, value, mask, bit) else before
  }

  function MaskedExtension(before: ExtensionStatus, value: Bits, mask: Bits, low: nat, high: nat): ExtensionStatus {
    ExtensionFromU2(Masked(ExtensionLow(before), value, mask, low), Masked(ExtensionHigh(before), value, mask, high))
  }

  function MaskedLevel(before: RawLevel, value: Bits, mask: Bits, low: nat, high: nat): RawLevel {
    LevelFromU2(Masked(LevelLow(before), value, mask, low), Masked(LevelHigh(before), value, mask, high))
  }

  predicate Touched(value: Bits, low: nat, high: nat) {
    Has(value, low) || Has(value, high)
  }

  function WriteInterruptBits(s: Status, value: Bits, mask: Bits): Status {
    s.(sie := NewBit(s.sie, value, mask, SIE), mie := NewBit(s.mie, value, mask, MIE),
      spie := NewBit(s.spie, value, mask, SPIE),
       ube := NewBit(s.ube, value, mask, UBE), mpie := NewBit(s.mpie, value, mask, MPIE),
       spp := NewBit(s.spp, value, mask, SPP))
  }

  function WriteVs(s: Status, value: Bits, mask: Bits): Status {
    if Touched(value, VS0, VS1) then SetVs(s, MaskedExtension(s.vs, value, mask, VS0, VS1)) else s
  }

  function WriteMpp(s: Status, value: Bits, mask: Bits): Status {
    if Touched(value, MPP0, MPP1) then SetMpp(s, MaskedLevel(s.mpp, value, mask, MPP0, MPP1)) else s
  }

  function WriteFs(s: Status, value: Bits, mask: Bits): Status {
    if Touched(value, FS0, FS1) then SetFs(s, MaskedExtension(s.fs, value, mask, FS0, FS1)) else s
  }

  function WriteModeBits(s: Status, value: Bits, mask: Bits): Status {
    s.(mprv := NewBit(s.mprv, value, mask, MPRV), sum := NewBit(s.sum, value, mask, SUM),
      mxr := NewBit(s.mxr, value, mask, MXR),
       tvm := NewBit(s.tvm, value, mask, TVM), tw := NewBit(s.tw, value, mask, TW),
       tsr := NewBit(s.tsr, value, mask, TSR))
  }

  /** As in the code, the fields that a write looks at are taken from the value, not from the mask. */
  function WriteMstatus(s: Status, value: Bits, mask: Bits): Status {
    var t := WriteInterruptBits(s, value, mask);
    var t := WriteVs(t, value, mask);
    var t := WriteMpp(t, value, mask);
    var t := WriteFs(t, value, mask);
    WriteModeBits(t, value, mask)
  }

  function WriteSstatus(s: Status, value: Bits, mask: Bits): Status {
    WriteMstatus(s, value, mask * SSTATUS_MASK)
  }

  function WriteMstatush(s: Status, value: Bits, mask: Bits): Status {
    s.(mbe := if Has(mask, MBE) then Has(value, MBE) else s.mbe, sbe := if Has(mask, SBE) then Has(value, SBE)
      else s.sbe)
  }

  // ---------- Properties ----------

  /** MPP is never the reserved level, and SD tells whether some extension is dirty. */
  predicate Good(s: Status) {
    !s.mpp.RawReserved? && (s.sd <==> s.fs == Dirty || s.vs == Dirty || s.xs == Dirty)
  }

  lemma WritesKeepStatus(s: Status, value: Bits, mask: Bits)
    requires Good(s)
    ensures
      && Good(WriteMstatus(s, value, mask)) && Good(WriteSstatus(s, value, mask)) && Good(WriteMstatush(s, value, mask))
  {
    hide WriteInterruptBits, WriteVs, WriteMpp, WriteFs, WriteModeBits, Has, Good;
    StagesKeepStatus(s, value, mask);
    StagesKeepStatus(s, value, mask * SSTATUS_MASK);
    EndianBitsKeepStatus(s, value, mask);
  }

  lemma EndianBitsKeepStatus(s: Status, value: Bits, mask: Bits)
    requires Good(s)
    ensures Good(WriteMstatush(s, value, mask))
  {
  }

  lemma StagesKeepStatus(s: Status, value: Bits, mask: Bits)
    requires Good(s)
    ensures Good(WriteMstatus(s, value, mask))
  {
    hide WriteInterruptBits, WriteVs, WriteMpp, WriteFs, WriteModeBits, Has, Good;
    var a := WriteInterruptBits(s, value, mask);
    var b := WriteVs(a, value, mask);
    var c := WriteMpp(b, value, mask);
    var d := WriteFs(c, value, mask);
    BitsKeepStatus(s, value, mask);
    PairsKeepStatus(a, value, mask);
    PairsKeepStatus(b, value, mask);
    PairsKeepStatus(c, value, mask);
    BitsKeepStatus(d, value, mask);
  }

  lemma BitsKeepStatus(s: Status, value: Bits, mask: Bits)
    requires Good(s)
    ensures Good(WriteInterruptBits(s, value, mask)) && Good(WriteModeBits(s, value, mask))
  {
  }

  lemma PairsKeepStatus(s: Status, value: Bits, mask: Bits)
    requires Good(s)
    ensures Good(WriteVs(s, value, mask)) && Good(WriteMpp(s, value, mask)) && Good(WriteFs(s, value, mask))
  {
    hide MaskedExtension, MaskedLevel, Touched, Has, SetVs, SetMpp, SetFs, Good;
    ExtensionsKeepStatus(s, MaskedExtension(s.vs, value, mask, VS0, VS1));
    LevelsKeepStatus(s, MaskedLevel(s.mpp, value, mask, MPP0, MPP1));
    ExtensionsKeepStatus(s, MaskedExtension(s.fs, value, mask, FS0, FS1));
  }

  lemma ExtensionsKeepStatus(s: Status, e: ExtensionStatus)
    requires Good(s)
    ensures Good(SetVs(s, e)) && Good(SetFs(s, e))
    ensures SameMachineFields(s, SetVs(s, e)) && SameMachineFields(s, SetFs(s, e))
  {
  }

  lemma LevelsKeepStatus(s: Status, l: RawLevel)
    requires Good(s)
    ensures Good(SetMpp(s, l)) && SetMpp(s, s.mpp) == s
  {
  }

  /** The fields that only machine mode may change. */
  predicate SameMachineFields(s: Status, t: Status) {
    && s.mie == t.mie && s.mpie == t.mpie && s.mpp == t.mpp && s.mprv == t.mprv && s.tvm == t.tvm && s.tw == t.tw
    && s.tsr == t.tsr
    && s.mbe == t.mbe && s.sbe == t.sbe && s.xs == t.xs
  }

  lemma SstatusHidesMachineBits(mask: Bits)
    ensures !Has(mask * SSTATUS_MASK, MIE) && !Has(mask * SSTATUS_MASK, MPIE)
    ensures !Has(mask * SSTATUS_MASK, MPP0) && !Has(mask * SSTATUS_MASK, MPP1)
    ensures !Has(mask * SSTATUS_MASK, MPRV) && !Has(mask * SSTATUS_MASK, TVM)
    ensures !Has(mask * SSTATUS_MASK, TW) && !Has(mask * SSTATUS_MASK, TSR)
  {
  }

  /** A write of sstatus never changes a field of machine mode, whatever value it takes its mask from. */
  lemma SstatusIsConfined(s: Status, value: Bits, mask: Bits)
    requires Good(s)
    ensures SameMachineFields(s, WriteSstatus(s, value, mask))
  {
    hide WriteInterruptBits, WriteVs, WriteMpp, WriteFs, WriteModeBits, Has, Good;
    var m := mask * SSTATUS_MASK;
    SstatusHidesMachineBits(mask);
    var a := WriteInterruptBits(s, value, m);
    var b := WriteVs(a, value, m);
    var c := WriteMpp(b, value, m);
    var d := WriteFs(c, value, m);
    BitsKeepStatus(s, value, m);
    PairsKeepStatus(a, value, m);
    PairsKeepStatus(b, value, m);
    HiddenBits(s, value, m);
    HiddenPairs(a, value, m);
    HiddenPairs(b, value, m);
    HiddenPairs(c, value, m);
    HiddenBits(d, value, m);
  }

  lemma HiddenBits(s: Status, value: Bits, m: Bits)
    requires !Has(m, MIE) && !Has(m, MPIE) && !Has(m, MPRV) && !Has(m, TVM) && !Has(m, TW) && !Has(m, TSR)
    ensures SameMachineFields(s, WriteInterruptBits(s, value, m)) && SameMachineFields(s, WriteModeBits(s, value, m))
  {
  }

  lemma HiddenPairs(s: Status, value: Bits, m: Bits)
    requires Good(s) && !Has(m, MPP0) && !Has(m, MPP1)
    ensures
      && SameMachineFields(s, WriteVs(s, value, m)) && SameMachineFields(s, WriteMpp(s, value, m))
      && SameMachineFields(s, WriteFs(s, value, m))
  {
    hide MaskedExtension, MaskedLevel, Touched, Has, SetVs, SetMpp, SetFs, Good;
    ExtensionsKeepStatus(s, MaskedExtension(s.vs, value, m, VS0, VS1));
    ExtensionsKeepStatus(s, MaskedExtension(s.fs, value, m, FS0, FS1));
    LevelsKeepStatus(s, s.mpp);
    HiddenLevel(s.mpp, value, m, MPP0, MPP1);
  }

  lemma HiddenLevel(l: RawLevel, value: Bits, m: Bits, low: nat, high: nat)
    requires !Has(m, low) && !Has(m, high)
    ensures MaskedLevel(l, value, m, low, high) == l
  {
  }

  // ---------- What a masked write should do ----------

  /** A reserved level is ignored. */
  function LegalLevel(before: RawLevel, l: RawLevel): RawLevel {
    if l.RawReserved? then before else l
  }

  /** What a write under a mask means: every field gets its masked bits, the reserved level is ignored,
      and SD follows the extensions. */
  function Intended(s: Status, value: Bits, mask: Bits): Status {
    UpdateSd(s.(sie := Masked(s.sie, value, mask, SIE), mie := Masked(s.mie, value, mask, MIE),
      spie := Masked(s.spie, value, mask, SPIE),
                ube := Masked(s.ube, value, mask, UBE), mpie := Masked(s.mpie, value, mask, MPIE),
                spp := Masked(s.spp, value, mask, SPP),
                vs := MaskedExtension(s.vs, value, mask, VS0, VS1), fs := MaskedExtension(s.fs, value, mask, FS0, FS1),
                mpp := LegalLevel(s.mpp, MaskedLevel(s.mpp, value, mask, MPP0, MPP1)),
                mprv := Masked(s.mprv, value, mask, MPRV), sum := Masked(s.sum, value, mask, SUM),
                mxr := Masked(s.mxr, value, mask, MXR),
                tvm := Masked(s.tvm, value, mask, TVM), tw := Masked(s.tw, value, mask, TW),
                tsr := Masked(s.tsr, value, mask, TSR)))
  }

  /** What the code makes of a pair of bits. */
  function NewExtension(before: ExtensionStatus, value: Bits, mask: Bits, low: nat, high: nat): ExtensionStatus {
    if Touched(value, low, high) then MaskedExtension(before, value, mask, low, high) else before
  }

  function NewLevel(before: RawLevel, value: Bits, mask: Bits, low: nat, high: nat): RawLevel {
    if Touched(value, low, high) then LegalLevel(before, MaskedLevel(before, value, mask, low, high)) else before
  }

  /** The stages of a write of mstatus, all in one. */
  lemma MstatusFields(s: Status, value: Bits, mask: Bits)
    requires Good(s)
    ensures WriteMstatus(s, value, mask) ==
      UpdateSd(s.(sie := NewBit(s.sie, value, mask, SIE), mie := NewBit(s.mie, value, mask, MIE),
        spie := NewBit(s.spie, value, mask, SPIE),
                  ube := NewBit(s.ube, value, mask, UBE), mpie := NewBit(s.mpie, value, mask, MPIE),
                  spp := NewBit(s.spp, value, mask, SPP),
                  vs := NewExtension(s.vs, value, mask, VS0, VS1), fs := NewExtension(s.fs, value, mask, FS0, FS1),
                  mpp := NewLevel(s.mpp, value, mask, MPP0, MPP1),
                  mprv := NewBit(s.mprv, value, mask, MPRV), sum := NewBit(s.sum, value, mask, SUM),
                  mxr := NewBit(s.mxr, value, mask, MXR),
                  tvm := NewBit(s.tvm, value, mask, TVM), tw := NewBit(s.tw, value, mask, TW),
                  tsr := NewBit(s.tsr, value, mask, TSR)))
  {
    hide WriteVs, WriteMpp, WriteFs, NewBit, NewExtension, NewLevel, Good, Has;
    var a := WriteInterruptBits(s, value, mask);
    var b := WriteVs(a, value, mask);
    var c := WriteMpp(b, value, mask);
    BitsKeepStatus(s, value, mask);
    PairsKeepStatus(a, value, mask);
    PairsKeepStatus(b, value, mask);
    PairStages(a, value, mask);
    PairStages(b, value, mask);
    PairStages(c, value, mask);
  }

  lemma PairStages(s: Status, value: Bits, mask: Bits)
    requires Good(s)
    ensures WriteVs(s, value, mask) == UpdateSd(s.(vs := NewExtension(s.vs, value, mask, VS0, VS1)))
    ensures WriteMpp(s, value, mask) == s.(mpp := NewLevel(s.mpp, value, mask, MPP0, MPP1))
    ensures WriteFs(s, value, mask) == UpdateSd(s.(fs := NewExtension(s.fs, value, mask, FS0, FS1)))
  {
    hide *;
    StagesDone(s, value, mask);
    if !Touched(value, VS0, VS1) {
      VsSkipped(s, value, mask);
    }
    if !Touched(value, FS0, FS1) {
      FsSkipped(s, value, mask);
    }
    if !Touched(value, MPP0, MPP1) {
      MppSkipped(s, value, mask);
    }
  }

  lemma StagesDone(s: Status, value: Bits, mask: Bits)
    ensures Touched(value, VS0, VS1) ==>
      WriteVs(s, value, mask) == UpdateSd(s.(vs := NewExtension(s.vs, value, mask, VS0, VS1)))
    ensures Touched(value, FS0, FS1) ==>
      WriteFs(s, value, mask) == UpdateSd(s.(fs := NewExtension(s.fs, value, mask, FS0, FS1)))
    ensures Touched(value, MPP0, MPP1) ==>
      WriteMpp(s, value, mask) == s.(mpp := NewLevel(s.mpp, value, mask, MPP0, MPP1))
  {
    hide MaskedExtension, MaskedLevel, Touched, UpdateSd, LegalLevel, SetMpp;
    LevelIsSet(s, MaskedLevel(s.mpp, value, mask, MPP0, MPP1));
  }

  lemma VsSkipped(s: Status, value: Bits, mask: Bits)
    requires Good(s) && !Touched(value, VS0, VS1)
    ensures WriteVs(s, value, mask) == UpdateSd(s.(vs := NewExtension(s.vs, value, mask, VS0, VS1)))
  {
    hide MaskedExtension, Touched;
    SdIsRight(s);
  }

  lemma FsSkipped(s: Status, value: Bits, mask: Bits)
    requires Good(s) && !Touched(value, FS0, FS1)
    ensures WriteFs(s, value, mask) == UpdateSd(s.(fs := NewExtension(s.fs, value, mask, FS0, FS1)))
  {
    hide MaskedExtension, Touched;
    SdIsRight(s);
  }

  lemma MppSkipped(s: Status, value: Bits, mask: Bits)
    requires !Touched(value, MPP0, MPP1)
    ensures WriteMpp(s, value, mask) == s.(mpp := NewLevel(s.mpp, value, mask, MPP0, MPP1))
  {
    hide MaskedLevel, Touched, LegalLevel, SetMpp;
  }

  lemma SdIsRight(s: Status)
    requires Good(s)
    ensures UpdateSd(s) == s
  {
  }

  lemma LevelIsSet(s: Status, l: RawLevel)
    ensures SetMpp(s, l) == s.(mpp := LegalLevel(s.mpp, l))
  {
  }

  /** A set bit that the write asks to clear. */
  predicate Cleared(before: bool, value: Bits, mask: Bits, bit: nat) {
    before && Has(mask, bit) && !Has(value, bit)
  }

  predicate ClearsBit(s: Status, value: Bits, mask: Bits) {
    || Cleared(s.sie, value, mask, SIE) || Cleared(s.mie, value, mask, MIE) || Cleared(s.spie, value, mask, SPIE)
    || Cleared(s.ube, value, mask, UBE) || Cleared(s.mpie, value, mask, MPIE) || Cleared(s.spp, value, mask, SPP)
    || Cleared(s.mprv, value, mask, MPRV) || Cleared(s.sum, value, mask, SUM) || Cleared(s.mxr, value, mask, MXR)
    || Cleared(s.tvm, value, mask, TVM) || Cleared(s.tw, value, mask, TW) || Cleared(s.tsr, value, mask, TSR)
  }

  /** The value has neither bit of a pair, while its masked bits are not what they were. */
  predicate ClearsPair(s: Status, value: Bits, mask: Bits) {
    || (!Touched(value, VS0, VS1) && MaskedExtension(s.vs, value, mask, VS0, VS1) != s.vs)
    || (!Touched(value, FS0, FS1) && MaskedExtension(s.fs, value, mask, FS0, FS1) != s.fs)
    || (!Touched(value, MPP0, MPP1) && MaskedLevel(s.mpp, value, mask, MPP0, MPP1) !in {s.mpp, RawReserved})
  }

  /** A write of mstatus does what it should exactly when it neither asks to clear a set bit nor to
      change a pair of bits by zeros alone. */
  lemma MstatusIsMaskedExactly(s: Status, value: Bits, mask: Bits)
    requires Good(s)
    ensures WriteMstatus(s, value, mask) == Intended(s, value, mask) <==>
      !ClearsBit(s, value, mask) && !ClearsPair(s, value, mask)
  {
    hide WriteMstatus, MaskedExtension, MaskedLevel, Touched, Good, Has, NewBit, Masked, ClearsBit;
    MstatusFields(s, value, mask);
    ClearedBits(s, value, mask);
  }

  /** Which single bits come out wrong. */
  lemma ClearedBits(s: Status, value: Bits, mask: Bits)
    ensures ClearsBit(s, value, mask) <==>
      || NewBit(s.sie, value, mask, SIE) != Masked(s.sie, value, mask, SIE)
      || NewBit(s.mie, value, mask, MIE) != Masked(s.mie, value, mask, MIE)
      || NewBit(s.spie, value, mask, SPIE) != Masked(s.spie, value, mask, SPIE)
      || NewBit(s.ube, value, mask, UBE) != Masked(s.ube, value, mask, UBE)
      || NewBit(s.mpie, value, mask, MPIE) != Masked(s.mpie, value, mask, MPIE)
      || NewBit(s.spp, value, mask, SPP) != Masked(s.spp, value, mask, SPP)
      || NewBit(s.mprv, value, mask, MPRV) != Masked(s.mprv, value, mask, MPRV)
      || NewBit(s.sum, value, mask, SUM) != Masked(s.sum, value, mask, SUM)
      || NewBit(s.mxr, value, mask, MXR) != Masked(s.mxr, value, mask, MXR)
      || NewBit(s.tvm, value, mask, TVM) != Masked(s.tvm, value, mask, TVM)
      || NewBit(s.tw, value, mask, TW) != Masked(s.tw, value, mask, TW)
      || NewBit(s.tsr, value, mask, TSR) != Masked(s.tsr, value, mask, TSR)
  {
    hide NewBit, Masked, Cleared;
    BitIsMaskedExactly(s.sie, value, mask, SIE);
    BitIsMaskedExactly(s.mie, value, mask, MIE);
    BitIsMaskedExactly(s.spie, value, mask, SPIE);
    BitIsMaskedExactly(s.ube, value, mask, UBE);
    BitIsMaskedExactly(s.mpie, value, mask, MPIE);
    BitIsMaskedExactly(s.spp, value, mask, SPP);
    BitIsMaskedExactly(s.mprv, value, mask, MPRV);
    BitIsMaskedExactly(s.sum, value, mask, SUM);
    BitIsMaskedExactly(s.mxr, value, mask, MXR);
    BitIsMaskedExactly(s.tvm, value, mask, TVM);
    BitIsMaskedExactly(s.tw, value, mask, TW);
    BitIsMaskedExactly(s.tsr, value, mask, TSR);
  }

  lemma BitIsMaskedExactly(before: bool, value: Bits, mask: Bits, bit: nat)
    ensures NewBit(before, value, mask, bit) == Masked(before, value, mask, bit) <==> !Cleared(before, value, mask, bit)
  {
  }

  /** The same of sstatus, whose mask has only the bits of supervisor mode. */
  lemma SstatusIsMaskedExactly(s: Status, value: Bits, mask: Bits)
    requires Good(s)
    ensures var m := mask * SSTATUS_MASK;
      WriteSstatus(s, value, mask) == Intended(s, value, m) <==> !ClearsBit(s, value, m) && !ClearsPair(s, value, m)
  {
    hide WriteMstatus, Intended, ClearsBit, ClearsPair;
    MstatusIsMaskedExactly(s, value, mask * SSTATUS_MASK);
  }

  /** A csrrc, which writes zeros under its mask, never changes the register. So it does what it should
      only when there is nothing to clear. */
  lemma ReadClearChangesNothing(s: Status, mask: Bits)
    requires Good(s)
    ensures WriteMstatus(s, {}, mask) == s && WriteSstatus(s, {}, mask) == s
    ensures Intended(s, {}, mask) == s <==> !ClearsBit(s, {}, mask) && !ClearsPair(s, {}, mask)
  {
    hide WriteMstatus, Intended, ClearsBit, ClearsPair;
    ZeroesAreIgnored(s, mask);
    ZeroesAreIgnored(s, mask * SSTATUS_MASK);
    MstatusIsMaskedExactly(s, {}, mask);
  }

  /** Supervisor interrupts stay enabled when a write of mstatus asks to disable them. */
  lemma EnableCannotBeCleared(s: Status)
    requires Good(s) && s.sie
    ensures WriteMstatus(s, {}, {SIE}).sie && !Intended(s, {}, {SIE}).sie && ClearsBit(s, {}, {SIE})
  {
    hide WriteMstatus, MaskedExtension, MaskedLevel;
    ZeroesAreIgnored(s, {SIE});
  }

  /** A write of zeros, which should clear every writable bit of the register, changes nothing. */
  lemma ZeroesAreIgnored(s: Status, mask: Bits)
    ensures WriteMstatus(s, {}, mask) == s
  {
    hide WriteInterruptBits, WriteVs, WriteMpp, WriteFs, WriteModeBits;
    ZeroStages(s, mask);
  }

  lemma ZeroStages(s: Status, mask: Bits)
    ensures WriteInterruptBits(s, {}, mask) == s && WriteModeBits(s, {}, mask) == s
    ensures WriteVs(s, {}, mask) == s && WriteMpp(s, {}, mask) == s && WriteFs(s, {}, mask) == s
  {
  }

  /** The fields that the two status words show. */
  function FieldsOf(w: Bits, high: Bits): Status {
    Status(Has(w, SIE), Has(w, MIE), Has(w, SPIE), Has(w, UBE), Has(w, MPIE), Has(w, SPP),
      ExtensionFromU2(Has(w, VS0), Has(w, VS1)),
           LevelFromU2(Has(w, MPP0), Has(w, MPP1)), ExtensionFromU2(Has(w, FS0), Has(w, FS1)),
           ExtensionFromU2(Has(w, XS0), Has(w, XS1)),
           Has(w, MPRV), Has(w, SUM), Has(w, MXR), Has(w, TVM), Has(w, TW), Has(w, TSR), Has(w, SD), Has(high, SBE),
           Has(high, MBE))
  }

  /** Reading mstatus and mstatush shows every field. */
  lemma WordsShowFields(s: Status)
    ensures FieldsOf(Mstatus(s), Mstatush(s)) == s
  {
    hide StatusBit, ExtensionFromU2, LevelFromU2, Mstatus, Mstatush, Has;
    SingleBits(s);
    PairBits(s);
    MstatusBits(s);
  }

  lemma MstatusBits(s: Status)
    ensures forall b: nat :: b < 32 ==> Has(Mstatus(s), b) == StatusBit(s, b)
    ensures Has(Mstatush(s), SBE) == s.sbe && Has(Mstatush(s), MBE) == s.mbe
  {
    hide StatusBit;
  }

  lemma SingleBits(s: Status)
    ensures
      && StatusBit(s, SIE) == s.sie && StatusBit(s, MIE) == s.mie && StatusBit(s, SPIE) == s.spie
      && StatusBit(s, UBE) == s.ube
    ensures
      && StatusBit(s, MPIE) == s.mpie && StatusBit(s, SPP) == s.spp && StatusBit(s, MPRV) == s.mprv
      && StatusBit(s, SUM) == s.sum
    ensures
      && StatusBit(s, MXR) == s.mxr && StatusBit(s, TVM) == s.tvm && StatusBit(s, TW) == s.tw
      && StatusBit(s, TSR) == s.tsr
    ensures StatusBit(s, SD) == s.sd
  {
    hide ExtensionLow, ExtensionHigh, LevelLow, LevelHigh;
  }

  lemma PairBits(s: Status)
    ensures
      && ExtensionFromU2(StatusBit(s, VS0), StatusBit(s, VS1)) == s.vs
      && ExtensionFromU2(StatusBit(s, FS0), StatusBit(s, FS1)) == s.fs
    ensures
      && ExtensionFromU2(StatusBit(s, XS0), StatusBit(s, XS1)) == s.xs
      && LevelFromU2(StatusBit(s, MPP0), StatusBit(s, MPP1)) == s.mpp
  {
    hide StatusBit;
    BitsOfPairs(s);
  }

  lemma BitsOfPairs(s: Status)
    ensures StatusBit(s, VS0) == ExtensionLow(s.vs) && StatusBit(s, VS1) == ExtensionHigh(s.vs)
    ensures StatusBit(s, FS0) == ExtensionLow(s.fs) && StatusBit(s, FS1) == ExtensionHigh(s.fs)
    ensures StatusBit(s, XS0) == ExtensionLow(s.xs) && StatusBit(s, XS1) == ExtensionHigh(s.xs)
    ensures StatusBit(s, MPP0) == LevelLow(s.mpp) && StatusBit(s, MPP1) == LevelHigh(s.mpp)
  {
    hide ExtensionLow, ExtensionHigh, LevelLow, LevelHigh;
  }

  /** Reading sstatus shows nothing of the fields that only machine mode may change. */
  lemma SstatusShowsNoMachineFields(s: Status, t: Status)
    requires s == t.(mie := s.mie, mpie := s.mpie, mpp := s.mpp, mprv := s.mprv, tvm := s.tvm, tw := s.tw, tsr := s.tsr)
    ensures Sstatus(s) == Sstatus(t)
  {
    forall b: nat | b in SSTATUS_MASK ensures StatusBit(s, b) == StatusBit(t, b) {
    }
  }

  lemma TrapsKeepStatus(s: Status, from: Privilege)
    requires Good(s)
    ensures
      && Good(EnterSupervisor(s, from)) && Good(EnterMachine(s, from)) && Good(LeaveSupervisor(s))
      && Good(LeaveMachine(s))
  {
    hide EnterSupervisor, EnterMachine, LeaveSupervisor, LeaveMachine;
    SupervisorEntered(s, from);
    MachineEntered(s, from);
    SupervisorLeft(s);
    MachineLeft(s);
  }

  lemma SupervisorEntered(s: Status, from: Privilege)
    ensures Good(s) ==> Good(EnterSupervisor(s, from))
    ensures !from.Machine? ==> Spp(EnterSupervisor(s, from)) == from
    ensures var t := EnterSupervisor(s, from); t.spie == s.sie && t.mie == s.mie && t.tsr == s.tsr && !t.sie
  {
    hide UpdateSd;
  }

  lemma MachineEntered(s: Status, from: Privilege)
    ensures Good(s) ==> Good(EnterMachine(s, from))
    ensures var t := EnterMachine(s, from);
      t.mpie == s.mie && t.mpp == Raw(from) && t.sie == s.sie && t.spie == s.spie && t.spp == s.spp && t.tsr == s.tsr
        && !t.mie
  {
  }

  lemma SupervisorLeft(s: Status)
    ensures Good(s) ==> Good(LeaveSupervisor(s))
    ensures LeaveSupervisor(s).sie == s.spie && LeaveSupervisor(s).mie == s.mie
  {
  }

  lemma MachineLeft(s: Status)
    requires !s.mpp.RawReserved?
    ensures Good(s) ==> Good(LeaveMachine(s))
    ensures var t := LeaveMachine(s);
      t.mie == s.mpie && t.sie == s.sie && t.spie == s.spie && t.spp == s.spp && t.tsr == s.tsr
  {
  }

}
