/** The platform-level interrupt controller, and the line it drives: the MEIP bit of the core. */
module Plics {
  import opened Integers
  import opened Options
  import opened Words
  import opened InterruptRegisters

  const SOURCES: nat := 53

  lemma WordPowers()
    ensures Pow2(31) == 0x8000_0000 && Pow2(32) == 0x1_0000_0000
  {
    FourMore(0); FourMore(4); FourMore(8); FourMore(12); FourMore(16); FourMore(20); FourMore(24); FourMore(28);
    assert Pow2(32) == 2 * Pow2(31);
  }

  /** The low `n` bits of a word, the most significant one first. */
  function BitListFrom(w: nat, n: nat): (b: seq<bool>)
    ensures |b| == n
  {
    if n == 0 then [] else BitListFrom(w / 2, n - 1) + [w % 2 == 1]
  }

  function BitList(w: u32): seq<bool> {
    BitListFrom(w, 32)
  }

  /** The word with the given bits. */
  function Word(bits: seq<bool>): (w: nat)
    ensures w < Pow2(|bits|)
  {
    if bits == [] then 0 else 2 * Word(bits[..|bits| - 1]) + if bits[|bits| - 1] then 1 else 0
  }

  lemma {:induction false} BitsOfWord(bits: seq<bool>)
    ensures BitListFrom(Word(bits), |bits|) == bits
  {
    if bits != [] {
      BitsOfWord(bits[..|bits| - 1]);
    }
  }

  /** `w & 0x8000_0000` */
  function TopBitOnly(w: u32): u32 {
    if w >= 0x8000_0000 then 0x8000_0000 else 0
  }

  lemma {:induction false} BitsOfPower(w: nat, n: nat, j: nat)
    requires 0 < j < n && (w == 0 || w == Pow2(n - 1))
    ensures !BitListFrom(w, n)[j]
  {
    if j < n - 1 {
      BitsOfPower(w / 2, n - 1, j);
    }
  }

  /** The top bit stands for source 0. */
  lemma TopBitIsSourceZero(w: u32, j: nat)
    requires 0 < j < 32
    ensures !BitList(TopBitOnly(w))[j]
  {
    WordPowers();
    BitsOfPower(TopBitOnly(w), 32, j);
  }

  datatype State = State(priorities: seq<u32>, pending: seq<bool>, enabled: seq<bool>, threshold: u32)

  /** The state after a reset. */
  function Initial(): State {
    State(seq(SOURCES, _ => 0), seq(64, _ => false), seq(64, _ => false), 0)
  }

  predicate IsState(s: State) {
    |s.priorities| == SOURCES && |s.pending| == 64 && |s.enabled| == 64 && s.priorities[0] == 0
  }

  predicate Ready(s: State, i: nat)
    requires IsState(s) && i < SOURCES
  {
    s.enabled[i] && s.pending[i]
  }

  /** The last maximum of the sources from `i` on, taken from the highest number down. */
  function Best(s: State, i: nat): (b: Option<nat>)
    requires IsState(s) && i <= SOURCES
    ensures b.Some? ==> i <= b.value < SOURCES && Ready(s, b.value)
    decreases SOURCES - i
  {
    if i == SOURCES then None
    else
      var rest := Best(s, i + 1);
      if Ready(s, i) && (rest.None? || s.priorities[i] >= s.priorities[rest.value]) then Some(i) else rest
  }

  /** 0 when there is no source to handle. */
  function HighestPriorityPending(s: State): (source: nat)
    requires IsState(s)
    ensures source < SOURCES
  {
    match Best(s, 0)
    case None => 0
    case Some(i) => if s.priorities[i] <= s.threshold then 0 else i
  }

  predicate NeedsInterrupt(s: State)
    requires IsState(s)
  {
    HighestPriorityPending(s) != 0
  }

  lemma {:induction false} BestIsLowestMaximal(s: State, i: nat)
    requires IsState(s) && i <= SOURCES
    ensures Best(s, i).None? <==> forall k :: i <= k < SOURCES ==> !Ready(s, k)
    ensures Best(s, i).Some? ==>
      forall k :: i <= k < SOURCES && Ready(s, k) ==>
        s.priorities[k] <= s.priorities[Best(s, i).value]
          && (k < Best(s, i).value ==> s.priorities[k] < s.priorities[Best(s, i).value])
    decreases SOURCES - i
  {
    if i < SOURCES {
      BestIsLowestMaximal(s, i + 1);
    }
  }

  /** An interrupt is needed exactly when some enabled pending source has a priority above the
      threshold, and a claim picks the lowest-numbered source of maximal priority. */
  lemma ClaimIsRight(s: State)
    requires IsState(s)
    ensures NeedsInterrupt(s) <==>
      exists i :: 0 < i < SOURCES && s.enabled[i] && s.pending[i] && s.priorities[i] > s.threshold
    ensures NeedsInterrupt(s) ==> var c := HighestPriorityPending(s);
      && s.enabled[c] && s.pending[c] && s.priorities[c] > s.threshold
      && forall k :: 0 <= k < SOURCES && s.enabled[k] && s.pending[k] ==>
        s.priorities[k] <= s.priorities[c] && (k < c ==> s.priorities[k] < s.priorities[c])
  {
    BestIsLowestMaximal(s, 0);
    forall k | 0 <= k < SOURCES ensures Ready(s, k) <==> s.enabled[k] && s.pending[k] {
    }
  }

  // ---------- Registers ----------

  datatype Register = Priorities(index: nat) | Pending(word: nat) | Enabled(word: nat) | Threshold | ClaimComplete

  /** The offsets are used as indices as they are, not divided by the register size. */
  function FromAddress(address: u32): Option<Register> {
    if 0x4 <= address <= 0xD0 then Some(Priorities(address - 0x4 + 1))
    else if 0x1000 <= address <= 0x1004 then Some(Pending(address - 0x1000))
    else if 0x2000 <= address <= 0x2004 then Some(Enabled(address - 0x2000))
    else if address == 0x20_0000 then Some(Threshold)
    else if address == 0x20_0004 then Some(ClaimComplete)
    else None
  }

  /** The accesses that do not run past the end of an array. */
  predicate InBounds(address: u32) {
    match FromAddress(address)
    case Some(Priorities(i)) => i < SOURCES
    case Some(Pending(i)) => i < 2
    case Some(Enabled(i)) => i < 2
    case _ => true
  }

  function Min7(value: u32): u32 {
    if value < 7 then value else 7
  }

  function SetWord(bits: seq<bool>, i: nat, value: u32): (b: seq<bool>)
    requires |bits| == 64 && i < 2
    ensures |b| == 64
  {
    bits[..32 * i] + BitList(if i == 0 then TopBitOnly(value) else value) + bits[32 * i + 32..]
  }

  function Claim(s: State): (State, u32)
    requires IsState(s)
  {
    var c := HighestPriorityPending(s);
    (if c != 0 then s.(pending := s.pending[c := false]) else s, c)
  }

  function Written(s: State, register: Register, value: u32): (t: State)
    requires IsState(s)
    requires match register case Priorities(i) => 0 < i < SOURCES case Pending(i) => i < 2 case Enabled(i) => i < 2
      case _ => true
    ensures IsState(t)
  {
    match register
    case Priorities(i) => s.(priorities := s.priorities[i := Min7(value)])
    case Enabled(i) => s.(enabled := SetWord(s.enabled, i, value))
    case Pending(i) => s.(pending := SetWord(s.pending, i, value))
    case Threshold => s.(threshold := Min7(value))
    case ClaimComplete => if 1 <= value <= 52 then s.(pending := s.pending[value := false]) else s
  }

  // ---------- What happens to the controller ----------

  datatype Event = Raised(source: nat) | BusRead(address: u32) | BusWrite(address: u32, value: u32) | Restarted

  /** No access runs past the end of an array. */
  predicate Accepted(e: Event) {
    match e
    case Raised(i) => i < SOURCES
    case BusRead(a) => InBounds(a)
    case BusWrite(a, _) => InBounds(a)
    case Restarted => true
  }

  function After(s: State, e: Event): (t: State)
    requires IsState(s) && Accepted(e)
    ensures IsState(t)
  {
    match e
    case Raised(i) => s.(pending := s.pending[i := true])
    case BusRead(a) => if FromAddress(a) == Some(ClaimComplete) then Claim(s).0 else s
    case BusWrite(a, value) => (match FromAddress(a) case Some(register) => Written(s, register, value) case None => s)
    case Restarted => Initial()
  }

  /** What a claim, a raised source and a restart make of the state. A claim clears the pending bit of the
      source it answers, and nothing else. */
  lemma ClaimsAndRaises(s: State, i: nat)
    requires IsState(s) && i < SOURCES
    ensures var t, c := After(s, BusRead(0x20_0004)), HighestPriorityPending(s);
      if NeedsInterrupt(s) then s.pending[c] && t == s.(pending := s.pending[c := false]) else t == s
    ensures forall a: u32 :: a != 0x20_0004 && InBounds(a) ==> After(s, BusRead(a)) == s
    ensures After(s, Raised(i)) == s.(pending := s.pending[i := true])
    ensures After(s, Restarted) == State(seq(53, _ => 0), seq(64, _ => false), seq(64, _ => false), 0)
  {
    hide Best;
  }

  /** What a store makes of the state, by its address. Priorities and the threshold saturate at 7, of the
      first word of the bit arrays only source 0 is kept, and completing a source clears its pending bit. */
  lemma StoresByAddress(s: State, a: u32, value: u32)
    requires IsState(s) && InBounds(a)
    ensures var t, few := After(s, BusWrite(a, value)), if value < 7 then value else 7;
      var top := if value >= 0x8000_0000 then 0x8000_0000 else 0;
      if 0x4 <= a <= 0xD0 then a - 3 < 53 && t == s.(priorities := s.priorities[a - 3 := few])
      else if a == 0x1000 then t == s.(pending := BitList(top) + s.pending[32..])
      else if a == 0x1001 then t == s.(pending := s.pending[..32] + BitList(value))
      else if a == 0x2000 then t == s.(enabled := BitList(top) + s.enabled[32..])
      else if a == 0x2001 then t == s.(enabled := s.enabled[..32] + BitList(value))
      else if a == 0x20_0000 then t == s.(threshold := few)
      else if a == 0x20_0004 && 1 <= value <= 52 then t == s.(pending := s.pending[value := false])
      else t == s
  {
    hide BitListFrom;
  }

  /** The first element of the list of bits is the highest bit, and the last one is the lowest. */
  lemma BitOrder(w: u32)
    ensures BitList(w)[0] == (w >= 0x8000_0000) && BitList(w)[31] == (w % 2 == 1)
    ensures forall j :: 0 < j < 32 ==> !BitList(TopBitOnly(w))[j]
  {
    WordPowers();
    HighestBit(w, 32);
    assert BitListFrom(w, 32) == BitListFrom(w / 2, 31) + [w % 2 == 1];
    forall j | 0 < j < 32 ensures !BitList(TopBitOnly(w))[j] {
      TopBitIsSourceZero(w, j);
    }
  }

  lemma {:induction false} HighestBit(w: nat, n: nat)
    requires n > 0 && w < Pow2(n)
    ensures BitListFrom(w, n)[0] == (w >= Pow2(n - 1))
  {
    if n > 1 {
      HighestBit(w / 2, n - 1);
      assert w / 2 >= Pow2(n - 2) <==> w >= 2 * Pow2(n - 2);
    }
  }

  /** What the core is told when the state changes. */
  function Emitted(s: State, t: State): seq<LineChange>
    requires IsState(s) && IsState(t)
  {
    if NeedsInterrupt(s) && !NeedsInterrupt(t) then [Down(MachineExternal)]
    else if !NeedsInterrupt(s) && NeedsInterrupt(t) then [Up(MachineExternal)]
    else []
  }

  class Plic {
    var state: State
    /** What the interrupt callback last told the core. */
    var line: bool

    ghost predicate Valid()
      reads this
    {
      IsState(state) && line == NeedsInterrupt(state)
    }

    /** No source but number 0, which is no interrupt, is enabled. */
    ghost predicate NothingEnabled()
      reads this
      requires Valid()
    {
      forall i :: 0 < i < SOURCES ==> !state.enabled[i]
    }

    constructor ()
      ensures Valid() && !line && NothingEnabled()
    {
      state, line := Initial(), false;
      new;
      BestIsLowestMaximal(state, 0);
    }

    /** Applies `op`, and tells the core when that changed whether an interrupt is needed. */
    method Update<R>(op: State -> (State, R)) returns (res: R)
      requires Valid() && IsState(op(state).0)
      modifies this
      ensures Valid() && (state, res) == op(old(state))
      ensures line == LevelAfter(Emitted(old(state), state), MachineExternal, old(line))
    {
      var before := NeedsInterrupt(state);
      var (next, answer) := op(state);
      state, res := next, answer;
      var after := NeedsInterrupt(state);
      if before && !after {
        line := false;
      } else if !before && after {
        line := true;
      }
    }

    method Reset()
      requires Valid()
      modifies this
      ensures Valid() && state == After(old(state), Restarted) && NothingEnabled()
    {
      var _ := Update((s: State) => (Initial(), ()));
    }

    method Raise(index: nat)
      requires Valid() && index < SOURCES
      modifies this
      ensures Valid() && state == After(old(state), Raised(index))
    {
      ghost var s0 := state;
      var _ := Update((s: State) => (if |s.pending| == 64 then s.(pending := s.pending[index := true]) else s, ()));
    }

    method Read(address: u32) returns (value: u32)
      requires Valid() && InBounds(address)
      modifies this
      ensures Valid() && state == After(old(state), BusRead(address))
      ensures
        if 0x4 <= address <= 0xD0 then address - 3 < 53 && value == state.priorities[address - 3]
        else if address == 0x1000 then BitList(value) == state.pending[..32]
        else if address == 0x1001 then BitList(value) == state.pending[32..]
        else if address == 0x2000 then BitList(value) == state.enabled[..32]
        else if address == 0x2001 then BitList(value) == state.enabled[32..]
        else if address == 0x20_0000 then value == state.threshold
        else if address == 0x20_0004 then value == HighestPriorityPending(old(state))
        else value == 0
    {
      hide Best, NeedsInterrupt, BitListFrom, Word, Pow2;
      match FromAddress(address)
      case None => value := 0;
      case Some(Priorities(i)) => value := state.priorities[i];
      case Some(Enabled(i)) =>
        WordPowers();
        BitsOfWord(state.enabled[32 * i..32 * i + 32]);
        value := Word(state.enabled[32 * i..32 * i + 32]);
      case Some(Pending(i)) =>
        WordPowers();
        BitsOfWord(state.pending[32 * i..32 * i + 32]);
        value := Word(state.pending[32 * i..32 * i + 32]);
      case Some(Threshold) => value := state.threshold;
      case Some(ClaimComplete) =>
        value := Update((s: State) => if IsState(s) then Claim(s) else (s, 0));
    }

    method Write(address: u32, value: u32)
      requires Valid() && InBounds(address)
      modifies this
      ensures Valid() && state == After(old(state), BusWrite(address, value))
      ensures address % 4 == 0 && old(NothingEnabled()) ==> NothingEnabled()
    {
      hide Best, NeedsInterrupt, HighestPriorityPending, BitListFrom;
      match FromAddress(address)
      case None =>
      case Some(register) =>
        var _ := Update((s: State) => (if IsState(s) then Written(s, register, value) else s, ()));
        if register == Enabled(0) {
          forall i | 0 < i < 32 ensures !BitList(TopBitOnly(value))[i] {
            TopBitIsSourceZero(value, i);
          }
        }
    }
  }

  /** While nothing is enabled, no interrupt is signalled and every claim answers 0. */
  lemma NothingToClaim(s: State)
    requires IsState(s) && forall i :: 0 < i < SOURCES ==> !s.enabled[i]
    ensures !NeedsInterrupt(s) && Claim(s) == (s, 0)
  {
  }

  /** The bus only passes on word-aligned accesses. */
  predicate Possible(e: Event) {
    && Accepted(e)
    && match e case BusRead(a) => a % 4 == 0 case BusWrite(a, _) => a % 4 == 0 case _ => true
  }

  /** In every run of bus accesses the line agrees with the registers. As the registers are laid out,
      no access can enable a source, so the line is never raised. */
  method Drive(events: seq<Event>) returns (plic: Plic)
    requires forall e :: e in events ==> Possible(e)
    ensures plic.Valid() && plic.NothingEnabled() && !plic.line
  {
    plic := new Plic();
    for k := 0 to |events|
      invariant plic.Valid() && plic.NothingEnabled() && fresh(plic)
    {
      assert Possible(events[k]);
      match events[k]
      case Raised(i) => plic.Raise(i);
      case BusRead(a) => var _ := plic.Read(a);
      case BusWrite(a, v) => plic.Write(a, v);
      case Restarted => plic.Reset();
    }
    NothingToClaim(plic.state);
  }
}
