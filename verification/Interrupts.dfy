/** The mip, mie, mideleg, sip and sie registers, and the interrupt lines that drive them. */
module InterruptRegisters {
  import opened Options
  import opened Words

  datatype Interrupt =
    | SupervisorSoftware
    | MachineSoftware
    | SupervisorTimer
    | MachineTimer
    | SupervisorExternal
    | MachineExternal

  function Code(i: Interrupt): nat {
    match i
    case SupervisorSoftware => 1
    case MachineSoftware => 3
    case SupervisorTimer => 5
    case MachineTimer => 7
    case SupervisorExternal => 9
    case MachineExternal => 11
  }

  const VALID: Bits := {1, 3, 5, 7, 9, 11}

  const DELEGATABLE: Bits := {1, 5, 9}

  datatype Interrupts = Interrupts(delegate: Bits, seipExternal: bool, seipInternal: bool, mip: Bits, mie: Bits)

  const RESET: Interrupts := Interrupts({}, false, false, {}, {})

  predicate Bit(w: Bits, i: Interrupt) {
    Code(i) in w
  }

  function SetBit(w: Bits, i: Interrupt, value: bool): Bits {
    if value then w + {Code(i)} else w - {Code(i)}
  }

  function SetSupervisorExternal(s: Interrupts, external: bool, internal: bool): Interrupts {
    s.(seipExternal := external, seipInternal := internal,
      mip := SetBit(s.mip, SupervisorExternal, external || internal))
  }

  // ---------- Interrupt lines ----------

  /** The software bits are only set by their lines, and the supervisor timer has none. */
  function Raise(s: Interrupts, i: Interrupt): Interrupts {
    match i
    case SupervisorTimer => s
    case SupervisorExternal => SetSupervisorExternal(s, true, s.seipInternal)
    case _ => s.(mip := SetBit(s.mip, i, true))
  }

  function Lower(s: Interrupts, i: Interrupt): Interrupts {
    match i
    case MachineTimer => s.(mip := SetBit(s.mip, i, false))
    case MachineExternal => s.(mip := SetBit(s.mip, i, false))
    case SupervisorExternal => SetSupervisorExternal(s, false, s.seipInternal)
    case _ => s
  }

  /** What a device does with an interrupt line. */
  datatype LineChange = Up(line: Interrupt) | Down(line: Interrupt)

  function Apply(s: Interrupts, change: LineChange): Interrupts {
    match change
    case Up(i) => Raise(s, i)
    case Down(i) => Lower(s, i)
  }

  /** A series of line changes, one after the other. */
  function Drive(s: Interrupts, changes: seq<LineChange>): Interrupts {
    if changes == [] then s else Apply(Drive(s, changes[..|changes| - 1]), changes[|changes| - 1])
  }

  /** The lines that do something else than to set the software bit of supervisor mode. */
  const MACHINE_LINES: set<Interrupt> := {MachineSoftware, MachineTimer, MachineExternal, SupervisorExternal}

  /** What a line is seen to drive; the supervisor external bit has a second source beside its line. */
  predicate Level(s: Interrupts, i: Interrupt) {
    if i.SupervisorExternal? then s.seipExternal else Bit(s.mip, i)
  }

  /** The level of a line after some changes: what it was last set to. The software line only sets. */
  predicate LevelAfter(changes: seq<LineChange>, i: Interrupt, before: bool) {
    if changes == [] then before
    else
      var last := changes[|changes| - 1];
      if last == Up(i) then true
      else if last == Down(i) && !i.MachineSoftware? then false
      else LevelAfter(changes[..|changes| - 1], i, before)
  }

  // ---------- Register writes ----------

  function WriteMideleg(s: Interrupts, value: Bits, mask: Bits): Interrupts {
    s.(delegate := Merge(s.delegate, value, mask * DELEGATABLE))
  }

  function WriteMie(s: Interrupts, value: Bits, mask: Bits): Interrupts {
    s.(mie := Merge(s.mie, value, mask * VALID))
  }

  function WriteSie(s: Interrupts, value: Bits, mask: Bits): Interrupts {
    s.(mie := Merge(s.mie, value, mask * s.delegate))
  }

  function WriteBit(s: Interrupts, i: Interrupt, value: Bits, mask: Bits): Interrupts {
    if Bit(mask, i) then s.(mip := SetBit(s.mip, i, Bit(value, i))) else s
  }

  function WriteMip(s: Interrupts, value: Bits, mask: Bits): Interrupts {
    var t := if Bit(mask, SupervisorExternal)
      then SetSupervisorExternal(s, s.seipExternal, Bit(value, SupervisorExternal)) else s;
    WriteBit(WriteBit(t, SupervisorTimer, value, mask), SupervisorSoftware, value, mask)
  }

  function WriteSip(s: Interrupts, value: Bits, mask: Bits): Interrupts {
    WriteBit(s, SupervisorSoftware, value, mask)
  }

  // ---------- Ready interrupts ----------

  /** The first member of `order` whose bit is set. */
  function FirstIn(w: Bits, order: seq<Interrupt>): (r: Option<Interrupt>)
    ensures r.Some? ==> exists k :: 0 <= k < |order| && order[k] == r.value && Bit(w, r.value) && forall j ::
      0 <= j < k ==> !Bit(w, order[j])
    ensures r.None? ==> forall i :: i in order ==> !Bit(w, i)
  {
    if order == [] then None else if Bit(w, order[0]) then Some(order[0]) else FirstIn(w, order[1..])
  }

  const MACHINE_ORDER: seq<Interrupt> :=
    [MachineExternal, MachineSoftware, MachineTimer, SupervisorExternal, SupervisorSoftware, SupervisorTimer]

  const SUPERVISOR_ORDER: seq<Interrupt> := [SupervisorExternal, SupervisorSoftware, SupervisorTimer]

  function ReadyFor(s: Interrupts, delegated: bool): Bits {
    if delegated then s.mip * s.mie * s.delegate else s.mip * s.mie - s.delegate
  }

  function MachineReady(s: Interrupts): Option<Interrupt> {
    FirstIn(ReadyFor(s, false), MACHINE_ORDER)
  }

  function SupervisorReady(s: Interrupts): Option<Interrupt> {
    FirstIn(ReadyFor(s, true), SUPERVISOR_ORDER)
  }

  predicate Pending(s: Interrupts, i: Interrupt) {
    Bit(s.mip, i) && Bit(s.mie, i)
  }

  lemma BitsOfReady(s: Interrupts, i: Interrupt, delegated: bool)
    ensures Bit(ReadyFor(s, delegated), i) <==> Pending(s, i) && Bit(s.delegate, i) == delegated
  {
  }

  // ---------- Properties ----------

  predicate Good(s: Interrupts) {
    && s.delegate <= DELEGATABLE && s.mie <= VALID
    && (Bit(s.mip, SupervisorExternal) <==> s.seipExternal || s.seipInternal)
  }

  /** mideleg and mie stay inside their masks, and SEIP stays the disjunction of its two sources. */
  lemma RegisterWritesKeep(s: Interrupts, value: Bits, mask: Bits)
    requires Good(s)
    ensures Good(WriteMideleg(s, value, mask)) && Good(WriteMie(s, value, mask)) && Good(WriteSie(s, value, mask))
    ensures Good(WriteMip(s, value, mask)) && Good(WriteSip(s, value, mask))
  {
  }

  lemma LinesKeep(s: Interrupts, i: Interrupt)
    requires Good(s)
    ensures Good(Raise(s, i)) && Good(Lower(s, i))
    ensures Bit(Raise(s, MachineExternal).mip, MachineExternal) && !Bit(Lower(s, MachineExternal).mip, MachineExternal)
  {
  }

  lemma {:induction false} DriveKeeps(s: Interrupts, changes: seq<LineChange>)
    requires Good(s)
    ensures Good(Drive(s, changes))
  {
    if changes != [] {
      var n := |changes| - 1;
      DriveKeeps(s, changes[..n]);
      LinesKeep(Drive(s, changes[..n]), changes[n].line);
    }
  }

  /** Every line ends at the level it was last set to, and no enable or delegation changes. */
  lemma {:induction false} DriveSetsLevels(s: Interrupts, changes: seq<LineChange>, i: Interrupt)
    requires i in MACHINE_LINES
    ensures var t := Drive(s, changes);
      && Level(t, i) == LevelAfter(changes, i, Level(s, i))
      && t.delegate == s.delegate && t.mie == s.mie && t.seipInternal == s.seipInternal
      && (Bit(t.mip, SupervisorSoftware) <==> Bit(s.mip, SupervisorSoftware) || Up(SupervisorSoftware) in changes)
      && forall b :: b !in {1, 3, 7, 9, 11} ==> (b in t.mip <==> b in s.mip)
  {
    hide Apply, Level;
    if changes != [] {
      var n := |changes| - 1;
      DriveSetsLevels(s, changes[..n], i);
      ChangeSetsLevel(Drive(s, changes[..n]), changes[n], i);
    }
  }

  lemma ChangeSetsLevel(s: Interrupts, change: LineChange, i: Interrupt)
    requires i in MACHINE_LINES
    ensures var t := Apply(s, change);
      && Level(t, i) == (if change == Up(i) then true else if change == Down(i) && !i.MachineSoftware? then false
        else Level(s, i))
      && t.delegate == s.delegate && t.mie == s.mie && t.seipInternal == s.seipInternal
      && (Bit(t.mip, SupervisorSoftware) <==> Bit(s.mip, SupervisorSoftware) || change == Up(SupervisorSoftware))
      && forall b :: b !in {1, 3, 7, 9, 11} ==> (b in t.mip <==> b in s.mip)
  {
  }

  lemma {:induction false} DriveMore(s: Interrupts, a: seq<LineChange>, b: seq<LineChange>)
    ensures Drive(s, a + b) == Drive(Drive(s, a), b)
  {
    if b == [] {
      assert a + b == a;
    } else {
      var n := |b| - 1;
      DriveMore(s, a, b[..n]);
      assert (a + b)[..|a| + n] == a + b[..n];
    }
  }

  /** Some line ends at another level than it had. */
  predicate LinesMove(s: Interrupts, changes: seq<LineChange>) {
    exists i :: i in MACHINE_LINES && LevelAfter(changes, i, Level(s, i)) != Level(s, i)
  }

  /** Line changes alter nothing exactly when no line ends at another level, and the software bit of
      supervisor mode is not newly set. */
  lemma DriveIsQuiet(s: Interrupts, changes: seq<LineChange>)
    requires Good(s)
    ensures var t := Drive(s, changes);
      && (t.(mip := t.mip - {Code(SupervisorSoftware)}) == s.(mip := s.mip - {Code(SupervisorSoftware)}) <==>
        !LinesMove(s, changes))
      && (t == s <==> !LinesMove(s, changes) && (Up(SupervisorSoftware) in changes ==> Bit(s.mip, SupervisorSoftware)))
  {
    hide Drive;
    var t := Drive(s, changes);
    DriveKeeps(s, changes);
    forall i | i in MACHINE_LINES ensures Level(t, i) == LevelAfter(changes, i, Level(s, i)) {
      DriveSetsLevels(s, changes, i);
    }
    DriveSetsLevels(s, changes, MachineTimer);
    if !LinesMove(s, changes) {
      SameLevels(s, t);
    } else {
      var i :| i in MACHINE_LINES && LevelAfter(changes, i, Level(s, i)) != Level(s, i);
      LevelIsSeen(s, t, i);
    }
  }

  lemma LevelIsSeen(s: Interrupts, t: Interrupts, i: Interrupt)
    requires i in MACHINE_LINES && Level(s, i) != Level(t, i)
    ensures t.(mip := t.mip - {Code(SupervisorSoftware)}) != s.(mip := s.mip - {Code(SupervisorSoftware)})
  {
    if !i.SupervisorExternal? {
      assert (Code(i) in t.mip - {Code(SupervisorSoftware)}) != (Code(i) in s.mip - {Code(SupervisorSoftware)});
    }
  }

  lemma SameLevels(s: Interrupts, t: Interrupts)
    requires Good(s) && Good(t) && forall i :: i in MACHINE_LINES ==> Level(t, i) == Level(s, i)
    requires t.delegate == s.delegate && t.mie == s.mie && t.seipInternal == s.seipInternal
    requires forall b :: b !in {1, 3, 7, 9, 11} ==> (b in t.mip <==> b in s.mip)
    ensures t == s.(mip := t.mip) && t.mip - {Code(SupervisorSoftware)} == s.mip - {Code(SupervisorSoftware)}
    ensures Bit(t.mip, SupervisorSoftware) == Bit(s.mip, SupervisorSoftware) ==> t.mip == s.mip
  {
  }

  lemma {:induction false} LevelAfterMore(a: seq<LineChange>, b: seq<LineChange>, i: Interrupt, before: bool)
    ensures LevelAfter(a + b, i, before) == LevelAfter(b, i, LevelAfter(a, i, before))
  {
    if b == [] {
      assert a + b == a;
    } else {
      var n := |b| - 1;
      LevelAfterMore(a, b[..n], i, before);
      assert (a + b)[..|a| + n] == a + b[..n];
    }
  }

  /** The bits that devices drive are not affected by any register write. */
  lemma DeviceBitsAreReadOnly(s: Interrupts, value: Bits, mask: Bits, i: Interrupt)
    requires i in {MachineExternal, MachineTimer, MachineSoftware}
    ensures
      && Bit(WriteMip(s, value, mask).mip, i) == Bit(s.mip, i) && Bit(WriteSip(s, value, mask).mip, i) == Bit(s.mip, i)
  {
  }

  /** A write of sie only changes interrupts that are delegated. A write of sip may change one that
      is not: exactly when it flips the software interrupt bit while that is not delegated. */
  lemma SupervisorWritesAreConfined(s: Interrupts, value: Bits, mask: Bits)
    ensures forall i :: Bit(WriteSie(s, value, mask).mie, i) != Bit(s.mie, i) ==> Bit(s.delegate, i)
    ensures (exists i :: Bit(WriteSip(s, value, mask).mip, i) != Bit(s.mip, i) && !Bit(s.delegate, i)) <==>
      (Bit(mask, SupervisorSoftware) && Bit(value, SupervisorSoftware) != Bit(s.mip, SupervisorSoftware)
        && !Bit(s.delegate, SupervisorSoftware))
  {
  }
}
