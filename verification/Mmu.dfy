/** Sv32 address translation over page tables in memory, see section 4.3.2 of the RISC-V Privileged
    Architecture, version 20211203. */
module Mmus {
  import opened Integers
  import opened Privileges

  datatype Access = Read | Write | Execute

  datatype Fault = AccessFault | PageFault

  datatype Outcome = Ok(address: u32) | Err(fault: Fault)

  /** The registers a translation depends on. */
  datatype Config = Config(sv32: bool, rootPpn: Ppn, mxr: bool, sum: bool)

  // ---------- Page table entries ----------

  type Ppn = n: nat | n < 0x40_0000

  type Pair = n: nat | n < 4

  /** The fields of a page table entry; `g` and `rsw` are not looked at. */
  datatype Pte = Pte(v: bool, r: bool, w: bool, x: bool, u: bool, g: bool, a: bool, d: bool, rsw: Pair, ppn: Ppn) {

    predicate Invalid() {
      !v || (!r && w)
    }

    predicate IsPointer() {
      !r && !x
    }

    predicate Allows(access: Access, user: bool, c: Config) {
      && (match access case Read => r || (x && c.mxr) case Write => w case Execute => x)
      && (user == u || (!user && access != Execute && c.sum))
    }

    predicate NeedsUpdate(access: Access) {
      !a || (access == Write && !d)
    }

    /** The accessed bit is set, and the dirty bit tells whether this was a write. */
    function Updated(access: Access): Pte {
      this.(a := true, d := access == Write)
    }

    /** A superpage whose address is not a multiple of its size. */
    predicate Misaligned(level: nat) {
      level != 0 && ppn % 1024 != 0
    }
  }

  predicate Odd(w: nat) {
    w % 2 == 1
  }

  /** A bit in front of the bits of `w`. */
  function Join(b: bool, w: nat): nat {
    2 * w + if b then 1 else 0
  }

  function Half(w: nat): nat {
    w / 2
  }

  lemma Joined(b: bool, w: nat)
    ensures Odd(Join(b, w)) == b && Half(Join(b, w)) == w
  {
  }

  lemma Split(w: nat)
    ensures Join(Odd(w), Half(w)) == w
  {
  }

  /** The fields of a word, from the lowest bit up. */
  function Decode(w: u32): Pte {
    var w1 := Half(w);
    var w2 := Half(w1);
    var w3 := Half(w2);
    var w4 := Half(w3);
    var w5 := Half(w4);
    var w6 := Half(w5);
    var w7 := Half(w6);
    var w8 := Half(w7);
    Pte(Odd(w), Odd(w1), Odd(w2), Odd(w3), Odd(w4), Odd(w5), Odd(w6), Odd(w7), w8 % 4, w8 / 4)
  }

  function Encode(e: Pte): u32 {
    Join(e.v, Join(e.r, Join(e.w, Join(e.x, Join(e.u, Join(e.g, Join(e.a, Join(e.d, 4 * e.ppn + e.rsw))))))))
  }

  /** Words and fields determine each other, so updating a field leaves all other bits alone. */
  lemma DecodeEncode(e: Pte)
    ensures Decode(Encode(e)) == e
  {
    hide Join, Half, Odd;
    var e8 := 4 * e.ppn + e.rsw;
    var e7 := Join(e.d, e8);
    var e6 := Join(e.a, e7);
    var e5 := Join(e.g, e6);
    var e4 := Join(e.u, e5);
    var e3 := Join(e.x, e4);
    var e2 := Join(e.w, e3);
    var e1 := Join(e.r, e2);
    Joined(e.d, e8);
    Joined(e.a, e7);
    Joined(e.g, e6);
    Joined(e.u, e5);
    Joined(e.x, e4);
    Joined(e.w, e3);
    Joined(e.r, e2);
    Joined(e.v, e1);
  }

  lemma EncodeDecode(w: u32)
    ensures Encode(Decode(w)) == w
  {
    hide Join, Half, Odd;
    var w1 := Half(w);
    var w2 := Half(w1);
    var w3 := Half(w2);
    var w4 := Half(w3);
    var w5 := Half(w4);
    var w6 := Half(w5);
    var w7 := Half(w6);
    Split(w);
    Split(w1);
    Split(w2);
    Split(w3);
    Split(w4);
    Split(w5);
    Split(w6);
    Split(w7);
  }

  /** Where the fields lie in a word. */
  lemma EntryBits(w: u32)
    ensures var e := Decode(w);
      && (e.v <==> w % 2 == 1) && (e.r <==> w / 2 % 2 == 1) && (e.w <==> w / 4 % 2 == 1) && (e.x <==> w / 8 % 2 == 1)
      && (e.u <==> w / 16 % 2 == 1) && (e.g <==> w / 32 % 2 == 1) && (e.a <==> w / 64 % 2 == 1)
      && (e.d <==> w / 128 % 2 == 1) && e.rsw == w / 256 % 4 && e.ppn == w / 1024
  {
    hide Half;
    Halvings(w);
    assert w / 256 / 4 == w / 1024;
  }

  lemma Halvings(w: nat)
    ensures Half(w) == w / 2 && Half(w / 2) == w / 4 && Half(w / 4) == w / 8 && Half(w / 8) == w / 16
    ensures Half(w / 16) == w / 32 && Half(w / 32) == w / 64 && Half(w / 64) == w / 128 && Half(w / 128) == w / 256
  {
  }

  // ---------- Addresses ----------

  function PageOffset(address: u32): nat {
    address % 4096
  }

  /** The part of a virtual address that indexes the page table of a level. */
  function Vpn(address: u32, level: nat): (n: nat)
    ensures n < 1024
  {
    if level == 0 then (address / 4096) % 1024 else (address / 0x40_0000) % 1024
  }

  /** `ppn << 12` in 32 bits */
  function PageAddress(ppn: nat): (address: u32)
    ensures address % 4096 == 0
  {
    (ppn % 0x10_0000) * 4096
  }

  function EntryAddress(table: u32, address: u32, level: nat): u32
    requires table % 4096 == 0
  {
    table + 4 * Vpn(address, level)
  }

  // ---------- What a walk finds ----------

  /** Memory by word address; the addresses in `readOnly` cannot be written. */
  type Words = map<u32, u32>

  datatype Walked = Leaf(at: u32, level: nat) | Stopped(fault: Fault)

  /** The leaf entry of a virtual address, from the page table of `level` down. */
  function Walk(words: Words, table: u32, address: u32, level: nat): (w: Walked)
    requires table % 4096 == 0
    ensures w.Leaf? ==>
      w.at in words && w.level <= level && !Decode(words[w.at]).Invalid() && !Decode(words[w.at]).IsPointer()
    decreases level
  {
    var at := EntryAddress(table, address, level);
    if at !in words then Stopped(AccessFault)
    else
      var entry := Decode(words[at]);
      if entry.Invalid() then Stopped(PageFault)
      else if !entry.IsPointer() then Leaf(at, level)
      else if level == 0 then Stopped(PageFault)
      else Walk(words, PageAddress(entry.ppn), address, level - 1)
  }

  /** The physical address that a leaf maps a virtual address to. The lower part of a superpage's
      number is zero, so that adding to it is the same as a bitwise or. */
  function Mapped(entry: Pte, address: u32, level: nat): u32 {
    PageAddress(if level == 0 then entry.ppn else entry.ppn + Vpn(address, level)) + PageOffset(address)
  }

  function Translation(words: Words, readOnly: set<u32>, c: Config, address: u32, access: Access,
                       p: Privilege): (Outcome, Words) {
    if p.Machine? || !c.sv32 then (Ok(address), words)
    else
      match Walk(words, PageAddress(c.rootPpn), address, 1)
      case Stopped(fault) => (Err(fault), words)
      case Leaf(at, level) =>
        var entry := Decode(words[at]);
        if !entry.Allows(access, p.User?, c) || entry.Misaligned(level) then (Err(PageFault), words)
        else if !entry.NeedsUpdate(access) then (Ok(Mapped(entry, address, level)), words)
        else if at in readOnly then (Err(AccessFault), words)
        else (Ok(Mapped(entry, address, level)), words[at := Encode(entry.Updated(access))])
  }

  class Mmu {
    var words: Words
    const readOnly: set<u32>

    constructor (words: Words, readOnly: set<u32>)
      ensures this.words == words && this.readOnly == readOnly
    {
      this.words, this.readOnly := words, readOnly;
    }

    method Translate(c: Config, address: u32, access: Access, p: Privilege) returns (r: Outcome)
      modifies this
      ensures (r, words) == Translation(old(words), readOnly, c, address, access, p)
    {
      hide Decode, Encode, PageAddress, Vpn;
      if p.Machine? || !c.sv32 {
        return Ok(address);
      }
      var user := p.User?;
      var table := PageAddress(c.rootPpn);
      var level := 2;
      while true
        invariant 0 < level <= 2 && words == old(words) && table % 4096 == 0
        invariant Walk(words, PageAddress(c.rootPpn), address, 1) == Walk(words, table, address, level - 1)
        decreases level
      {
        level := level - 1;
        var at := EntryAddress(table, address, level);
        if at !in words {
          return Err(AccessFault);
        }
        var entry := Decode(words[at]);
        if entry.Invalid() {
          return Err(PageFault);
        }
        if entry.IsPointer() {
          if level == 0 {
            return Err(PageFault);
          }
          table := PageAddress(entry.ppn);
          continue;
        }
        if !entry.Allows(access, user, c) {
          return Err(PageFault);
        }
        var ppn: nat := entry.ppn;
        if level != 0 {
          if ppn % 1024 != 0 {
            return Err(PageFault);
          }
          ppn := ppn + Vpn(address, level);
        }
        if !entry.a || (access == Write && !entry.d) {
          if at in readOnly {
            return Err(AccessFault);
          }
          words := words[at := Encode(entry.(a := true, d := access == Write))];
        }
        return Ok(PageAddress(ppn) + PageOffset(address));
      }
    }
  }

  // ---------- Properties ----------

  /** A translation changes at most one entry, and in it nothing but the A and D bits; one that fails
      changes nothing. */
  lemma ChangesOneEntry(words: Words, readOnly: set<u32>, c: Config, address: u32, access: Access, p: Privilege)
    ensures var (r, after) := Translation(words, readOnly, c, address, access, p);
      && (r.Err? ==> after == words)
      && (after == words ||
          exists at :: at in words && at !in readOnly && after == words[at := after[at]]
                       && Decode(after[at]) == Decode(words[at]).(a := true, d := access == Write))
  {
    hide Decode, Encode, PageAddress, Vpn;
    if !p.Machine? && c.sv32 {
      var walked := Walk(words, PageAddress(c.rootPpn), address, 1);
      if walked.Leaf? {
        DecodeEncode(Decode(words[walked.at]).Updated(access));
        var after := words[walked.at := Encode(Decode(words[walked.at]).Updated(access))];
        assert after == words[walked.at := after[walked.at]];
      }
    }
  }

  /** Updating a leaf does not change which leaf a walk finds. */
  lemma {:induction false} WalkStays(words: Words, table: u32, address: u32, level: nat, at: u32, entry: u32)
    requires table % 4096 == 0 && at in words
    requires
      && !Decode(words[at]).IsPointer() && !Decode(words[at]).Invalid() && !Decode(entry).IsPointer()
      && !Decode(entry).Invalid()
    ensures Walk(words[at := entry], table, address, level) == Walk(words, table, address, level)
    decreases level
  {
    hide Decode, Encode, PageAddress, Vpn;
    var here := EntryAddress(table, address, level);
    if here in words && here != at && level > 0 {
      WalkStays(words, PageAddress(Decode(words[here]).ppn), address, level - 1, at, entry);
    }
  }

  /** Repeating an access gives the same address, and changes nothing any more. */
  lemma TranslationIsIdempotent(words: Words, readOnly: set<u32>, c: Config, address: u32, access: Access, p: Privilege)
    ensures var (r, after) := Translation(words, readOnly, c, address, access, p);
      Translation(after, readOnly, c, address, access, p) == (r, after)
  {
    hide Decode, Encode, PageAddress, Vpn, Walk;
    if !p.Machine? && c.sv32 {
      var walked := Walk(words, PageAddress(c.rootPpn), address, 1);
      if walked.Leaf? {
        var entry := Decode(words[walked.at]).Updated(access);
        DecodeEncode(entry);
        WalkStays(words, PageAddress(c.rootPpn), address, 1, walked.at, Encode(entry));
      }
    }
  }

  /** Changing the A and D bits of a writable leaf changes the result of no translation. */
  lemma OutcomeStays(words: Words, readOnly: set<u32>, c: Config, address: u32, access: Access, p: Privilege, at: u32,
                     e: Pte)
    requires
      && at in words && at !in readOnly && e == Decode(words[at]).(a := e.a, d := e.d) && !e.Invalid() && !e.IsPointer()
    ensures Translation(words[at := Encode(e)], readOnly, c, address, access, p).0
      == Translation(words, readOnly, c, address, access, p).0
  {
    hide Decode, Encode, PageAddress, Vpn, Walk;
    DecodeEncode(e);
    WalkStays(words, PageAddress(c.rootPpn), address, 1, at, Encode(e));
  }

  /** A translation for another address, access, privilege level or configuration, even one of another
      address space, never changes the result of this one. */
  lemma OthersKeepMapping(words: Words, readOnly: set<u32>, c: Config, address: u32, access: Access, p: Privilege,
                          d: Config, other: u32, otherAccess: Access, q: Privilege)
    ensures var after := Translation(words, readOnly, d, other, otherAccess, q).1;
      Translation(after, readOnly, c, address, access, p).0 == Translation(words, readOnly, c, address, access, p).0
  {
    hide Decode, Encode, PageAddress, Vpn, Walk, Translation;
    WhatIsUpdated(words, readOnly, d, other, otherAccess, q);
    if Translation(words, readOnly, d, other, otherAccess, q).1 != words {
      var at := Walk(words, PageAddress(d.rootPpn), other, 1).at;
      OutcomeStays(words, readOnly, c, address, access, p, at, Decode(words[at]).Updated(otherAccess));
    }
  }

  lemma WhatIsUpdated(words: Words, readOnly: set<u32>, c: Config, address: u32, access: Access, p: Privilege)
    ensures var (after, found) :=
      (Translation(words, readOnly, c, address, access, p).1, Walk(words, PageAddress(c.rootPpn), address, 1));
      after != words ==>
        found.Leaf? && found.at !in readOnly
          && after == words[found.at := Encode(Decode(words[found.at]).Updated(access))]
  {
    hide Decode, Encode, PageAddress, Vpn;
  }

  /** The physical address that section 4.3.2 prescribes, in 32 bits: the page number of the leaf, its
      lower part replaced by that of the virtual address for a superpage, and the page offset. */
  function Prescribed(entry: Pte, address: u32, level: nat): nat {
    var ppn := if level == 0 then entry.ppn else (entry.ppn / 1024) * 1024 + (address / 4096) % 1024;
    (ppn * 4096 + address % 4096) % 0x1_0000_0000
  }

  /** A page of 4 KiB is mapped as prescribed. A superpage is mapped as prescribed exactly when both
      page numbers of the virtual address are the same, since the wrong one of them is used. */
  lemma MappedAsPrescribed(entry: Pte, address: u32, level: nat)
    requires !entry.Misaligned(level)
    ensures level == 0 ==> Mapped(entry, address, level) == Prescribed(entry, address, level)
    ensures level > 0 ==>
      (Mapped(entry, address, level) == Prescribed(entry, address, level) <==> Vpn(address, 0) == Vpn(address, 1))
  {
    if level == 0 {
      InPage(entry.ppn, address % 4096);
    } else {
      InPage(entry.ppn + Vpn(address, 0), address % 4096);
      InPage(entry.ppn + Vpn(address, 1), address % 4096);
      SamePage(entry.ppn, Vpn(address, 0), Vpn(address, 1));
    }
  }

  lemma InPage(ppn: nat, offset: nat)
    requires offset < 4096
    ensures (ppn * 4096 + offset) % 0x1_0000_0000 == (ppn % 0x10_0000) * 4096 + offset
  {
  }

  lemma SamePage(ppn: nat, a: nat, b: nat)
    requires ppn % 1024 == 0 && a < 1024 && b < 1024
    ensures (ppn + a) % 0x10_0000 == (ppn + b) % 0x10_0000 <==> a == b
  {
  }

  /** Two levels of page tables that lead to a page of 4 KiB. */
  lemma TwoLevelTranslation(words: Words, readOnly: set<u32>, c: Config, address: u32, access: Access, p: Privilege,
                            root: u32, leaf: u32)
    requires !p.Machine? && c.sv32
    requires root == (c.rootPpn * 4096 + (address / 0x40_0000) * 4) % 0x1_0000_0000 && root in words
    requires var r := Decode(words[root]); r.v && !r.r && !r.w && !r.x
    requires leaf == (Decode(words[root]).ppn * 4096 + (address / 4096) % 1024 * 4) % 0x1_0000_0000 && leaf in words
    requires var l := Decode(words[leaf]); l.v && (l.r || (l.x && !l.w))
    requires var l := Decode(words[leaf]);
      match access case Read => l.r || (l.x && c.mxr) case Write => l.w case Execute => l.x
    requires var l := Decode(words[leaf]); if p.User? then l.u else !l.u || (c.sum && access != Execute)
    requires var l := Decode(words[leaf]); leaf !in readOnly || (l.a && (access == Write ==> l.d))
    ensures Translation(words, readOnly, c, address, access, p).0
         == Ok((Decode(words[leaf]).ppn * 4096 + address % 4096) % 0x1_0000_0000)
  {
    hide Decode, Encode, Walk, Prescribed, Mapped;
    EntryAddresses(c.rootPpn, address);
    EntryAddresses(Decode(words[root]).ppn, address);
    WalkTo(words, PageAddress(c.rootPpn), address, 1);
    WalkTo(words, PageAddress(Decode(words[root]).ppn), address, 0);
    MappedAsPrescribed(Decode(words[leaf]), address, 0);
    PrescribedPage(Decode(words[leaf]), address);
  }

  lemma EntryAddresses(ppn: Ppn, address: u32)
    ensures EntryAddress(PageAddress(ppn), address, 1) == (ppn * 4096 + (address / 0x40_0000) * 4) % 0x1_0000_0000
    ensures EntryAddress(PageAddress(ppn), address, 0) == (ppn * 4096 + (address / 4096) % 1024 * 4) % 0x1_0000_0000
  {
    InPage(ppn, address / 0x40_0000 * 4);
    InPage(ppn, (address / 4096) % 1024 * 4);
  }

  /** One level of a walk whose entry is in memory. */
  lemma WalkTo(words: Words, table: u32, address: u32, level: nat)
    requires table % 4096 == 0 && EntryAddress(table, address, level) in words
    ensures var at := EntryAddress(table, address, level);
      var entry := Decode(words[at]);
      !entry.Invalid() ==>
        && (!entry.IsPointer() ==> Walk(words, table, address, level) == Leaf(at, level))
        && (entry.IsPointer() && level > 0 ==>
          Walk(words, table, address, level) == Walk(words, PageAddress(entry.ppn), address, level - 1))
  {
  }

  lemma PrescribedPage(entry: Pte, address: u32)
    ensures Prescribed(entry, address, 0) == (entry.ppn * 4096 + address % 4096) % 0x1_0000_0000
  {
  }

  /** A root entry that maps a superpage of 4 MiB. The address is the prescribed one exactly when both
      page numbers of the virtual address are the same. */
  lemma SuperpageTranslation(words: Words, readOnly: set<u32>, c: Config, address: u32, access: Access, p: Privilege,
                             root: u32)
    requires !p.Machine? && c.sv32
    requires root == (c.rootPpn * 4096 + (address / 0x40_0000) * 4) % 0x1_0000_0000 && root in words
    requires var l := Decode(words[root]); l.v && (l.r || (l.x && !l.w)) && l.ppn % 1024 == 0
    requires var l := Decode(words[root]);
      match access case Read => l.r || (l.x && c.mxr) case Write => l.w case Execute => l.x
    requires var l := Decode(words[root]); if p.User? then l.u else !l.u || (c.sum && access != Execute)
    requires var l := Decode(words[root]); root !in readOnly || (l.a && (access == Write ==> l.d))
    ensures var l := Decode(words[root]);
      && Translation(words, readOnly, c, address, access, p).0
           == Ok(((l.ppn + address / 0x40_0000) * 4096 + address % 4096) % 0x1_0000_0000)
      && (Translation(words, readOnly, c, address, access, p).0 == Ok(Prescribed(l, address, 1)) <==>
          (address / 4096) % 1024 == address / 0x40_0000)
  {
    hide Decode, Encode, Walk, Prescribed, Mapped;
    EntryAddresses(c.rootPpn, address);
    WalkTo(words, PageAddress(c.rootPpn), address, 1);
    MappedAsPrescribed(Decode(words[root]), address, 1);
    MappedSuperpage(Decode(words[root]), address);
  }

  lemma MappedSuperpage(entry: Pte, address: u32)
    ensures Mapped(entry, address, 1) == ((entry.ppn + address / 0x40_0000) * 4096 + address % 4096) % 0x1_0000_0000
    ensures Vpn(address, 1) == address / 0x40_0000 && Vpn(address, 0) == (address / 4096) % 1024
  {
    InPage(entry.ppn + Vpn(address, 1), address % 4096);
  }

  /** Page protection: a translation below machine mode that succeeds has found a leaf, at the root or one
      level below it, whose bits permit the access: W for a write, X for an instruction, R, or X under MXR, for
      a read; U for user mode, and no U for supervisor mode except for data under SUM. It then has the
      accessed bit, and the dirty bit after a write. */
  lemma Permitted(words: Words, readOnly: set<u32>, c: Config, address: u32, access: Access, p: Privilege)
    returns (root: u32, at: u32)
    requires !p.Machine? && c.sv32 && Translation(words, readOnly, c, address, access, p).0.Ok?
    ensures root == (c.rootPpn * 4096 + (address / 0x40_0000) * 4) % 0x1_0000_0000 && root in words && at in words
    ensures var r := Decode(words[root]);
      if r.r || r.x then at == root && r.ppn % 1024 == 0
      else r.v && !r.w && at == (r.ppn * 4096 + (address / 4096) % 1024 * 4) % 0x1_0000_0000
    ensures var e := Decode(words[at]);
      && e.v && (e.r || (e.x && !e.w))
      && (match access case Read => e.r || (e.x && c.mxr) case Write => e.w case Execute => e.x)
      && if p.User? then e.u else !e.u || (c.sum && access != Execute)
    ensures var e, after := Decode(words[at]), Translation(words, readOnly, c, address, access, p).1;
      if e.a && (access == Write ==> e.d) then after == words
      else
        && at !in readOnly && at in after && after == words[at := after[at]]
        && Decode(after[at]) == e.(a := true, d := access == Write)
  {
    hide Decode, Encode, PageAddress, Vpn;
    root, at := EntryAddress(PageAddress(c.rootPpn), address, 1), Walk(words, PageAddress(c.rootPpn), address, 1).at;
    var r, e := Decode(words[root]), Decode(words[at]);
    EntryAddresses(c.rootPpn, address);
    EntryAddresses(r.ppn, address);
    DecodeEncode(e.Updated(access));
  }

  /** Without translation addresses are physical. */
  lemma Untranslated(words: Words, readOnly: set<u32>, c: Config, address: u32, access: Access, p: Privilege)
    requires p.Machine? || !c.sv32
    ensures Translation(words, readOnly, c, address, access, p) == (Ok(address), words)
  {
  }

  /** Page tables that cannot be written: a translation that would have to change one of their entries
      answers an access fault, and any other one is as if they could be written. */
  lemma ReadOnlyTables(words: Words, readOnly: set<u32>, c: Config, address: u32, access: Access, p: Privilege)
    ensures var (writable, after) := Translation(words, {}, c, address, access, p);
      Translation(words, readOnly, c, address, access, p)
        == if exists at :: at in readOnly && at in words && at in after && after[at] != words[at]
           then (Err(AccessFault), words) else (writable, after)
  {
    hide Decode, Encode, PageAddress, Vpn;
    if !p.Machine? && c.sv32 {
      var walked := Walk(words, PageAddress(c.rootPpn), address, 1);
      if walked.Leaf? {
        DecodeEncode(Decode(words[walked.at]).Updated(access));
      }
    }
  }

  /** Which fault a translation answers when all page tables can be written: an access fault if an entry on
      the way lies outside of memory, and a page fault otherwise. */
  lemma FaultKinds(words: Words, c: Config, address: u32, access: Access, p: Privilege, root: u32)
    requires Translation(words, {}, c, address, access, p).0.Err?
    requires root == (c.rootPpn * 4096 + (address / 0x40_0000) * 4) % 0x1_0000_0000
    ensures Translation(words, {}, c, address, access, p).0.fault == if root !in words then AccessFault
      else
        var r := Decode(words[root]);
        var leaf := (r.ppn * 4096 + (address / 4096) % 1024 * 4) % 0x1_0000_0000;
        if r.v && !r.r && !r.w && !r.x && leaf !in words then AccessFault else PageFault
  {
    hide Decode, Encode, PageAddress, Vpn;
    EntryAddresses(c.rootPpn, address);
    if root in words {
      EntryAddresses(Decode(words[root]).ppn, address);
    }
  }

  /** A readable superpage at page number 1024. */
  const SUPERPAGE: Pte := Pte(true, true, false, false, true, false, true, false, 0, 1024)

  const PAGED: Config := Config(true, 1, false, false)

  /** Virtual address 0x40_0000, whose page numbers are 1 and 0, should be mapped to the start of the
      superpage, but is mapped to its second page. */
  lemma SuperpageIsMisplaced()
    ensures var words := map[4100 := Encode(SUPERPAGE)];
      && Translation(words, {}, PAGED, 0x40_0000, Read, User).0 == Ok(1025 * 4096)
      && Prescribed(Decode(words[4100]), 0x40_0000, 1) == 1024 * 4096
  {
    hide Decode, Encode;
    DecodeEncode(SUPERPAGE);
    SuperpageTranslation(map[4100 := Encode(SUPERPAGE)], {}, PAGED, 0x40_0000, Read, User, 4100);
  }

  /** Where the code forgets a write: a translation clears a dirty bit exactly when it finds a permitted
      and aligned leaf in writable memory, dirty but not accessed, and is not for a write. */
  lemma DirtyBitLost(words: Words, readOnly: set<u32>, c: Config, address: u32, access: Access, p: Privilege, at: u32)
    requires at in words
    ensures var after := Translation(words, readOnly, c, address, access, p).1;
      var entry, found := Decode(words[at]), Walk(words, PageAddress(c.rootPpn), address, 1);
      at in after &&
      ((entry.d && !Decode(after[at]).d) <==>
        && !p.Machine? && c.sv32 && access != Write && at !in readOnly && !entry.a && entry.d
        && found.Leaf? && found.at == at && entry.Allows(access, p.User?, c) && !entry.Misaligned(found.level))
  {
    hide Decode, Encode, PageAddress, Vpn;
    if !p.Machine? && c.sv32 {
      var walked := Walk(words, PageAddress(c.rootPpn), address, 1);
      if walked.Leaf? {
        DecodeEncode(Decode(words[walked.at]).Updated(access));
      }
    }
  }

  /** A read through a dirty superpage whose accessed bit is clear makes it clean. */
  lemma ReadCleansPage()
    ensures var words := map[4096 := Encode(SUPERPAGE.(a := false, d := true))];
      var (r, after) := Translation(words, {}, PAGED, 0, Read, User);
      r.Ok? && Decode(words[4096]).d && 4096 in after && !Decode(after[4096]).d
  {
    hide Decode, Encode;
    var entry := SUPERPAGE.(a := false, d := true);
    DecodeEncode(entry);
    var words := map[4096 := Encode(entry)];
    SuperpageTranslation(words, {}, PAGED, 0, Read, User, 4096);
    DirtyBitLost(words, {}, PAGED, 0, Read, User, 4096);
    assert Walk(words, PageAddress(1), 0, 1) == Leaf(4096, 1);
  }
}
