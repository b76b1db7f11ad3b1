/** The reference-counted slab of the snapshot store, as a value.
    A slot either holds an item together with its reference count, or it is empty and links to
    the next empty slot. `nextEmpty` starts the chain of empty slots; the chain ends at the slab
    length, which is where the next fresh slot would go. */
module Slabs {
  import opened Options

  type Ptr = nat

  datatype Cell<+T> = Used(refs: nat, item: T) | Empty(next: nat)

  datatype Slab<+T> = Slab(cells: seq<Cell<T>>, nextEmpty: nat)

  predicate InUse<T>(s: Slab<T>, p: Ptr) {
    p < |s.cells| && s.cells[p].Used?
  }

  function ItemAt<T>(s: Slab<T>, p: Ptr): Option<T> {
    if InUse(s, p) then Some(s.cells[p].item) else None
  }

  // ---------- The chain of empty slots ----------

  /** `free` lists the slots visited from `p` until the slab length is reached. */
  ghost predicate Chain<T>(cells: seq<Cell<T>>, p: Ptr, free: seq<Ptr>)
    decreases |free|
  {
    if free == [] then p == |cells|
    else p == free[0] && p < |cells| && cells[p].Empty? && Chain(cells, cells[p].next, free[1..])
  }

  /** The chain from `nextEmpty` visits exactly the empty slots, each of them once. */
  ghost predicate IsFreeList<T>(s: Slab<T>, free: seq<Ptr>) {
    && Chain(s.cells, s.nextEmpty, free)
    && (forall i, j :: 0 <= i < j < |free| ==> free[i] != free[j])
    && (forall p: Ptr :: p in free <==> p < |s.cells| && s.cells[p].Empty?)
  }

  ghost predicate WellFormed<T>(s: Slab<T>) {
    && (exists free :: IsFreeList(s, free))
    && (forall p: Ptr :: InUse(s, p) ==> s.cells[p].refs >= 1)
  }

  /** A well-formed slab grows only when no slot is free, and otherwise reuses an empty slot. */
  lemma NextEmptyIsFree<T>(s: Slab<T>)
    requires WellFormed(s)
    ensures s.nextEmpty <= |s.cells|
    ensures s.nextEmpty < |s.cells| ==> s.cells[s.nextEmpty].Empty?
    ensures s.nextEmpty == |s.cells| <==> forall p: Ptr :: p < |s.cells| ==> s.cells[p].Used?
  {
  }

  lemma {:induction false} ChainFrame<T>(a: seq<Cell<T>>, b: seq<Cell<T>>, p: Ptr, free: seq<Ptr>)
    requires Chain(a, p, free) && |a| == |b|
    requires forall q :: q in free && q < |a| ==> a[q] == b[q]
    ensures Chain(b, p, free)
    decreases |free|
  {
    if free != [] {
      assert free[0] in free;
      ChainFrame(a, b, a[p].next, free[1..]);
    }
  }

  // ---------- Operations ----------

  function AddItem<T>(s: Slab<T>, item: T): (Slab<T>, Ptr)
    requires s.nextEmpty <= |s.cells|
    requires s.nextEmpty < |s.cells| ==> s.cells[s.nextEmpty].Empty?
  {
    var p := s.nextEmpty;
    if p == |s.cells| then (Slab(s.cells + [Used(1, item)], p + 1), p)
    else (Slab(s.cells[p := Used(1, item)], s.cells[p].next), p)
  }

  function AddRef<T>(s: Slab<T>, p: Ptr): Slab<T>
    requires InUse(s, p)
  {
    s.(cells := s.cells[p := Used(s.cells[p].refs + 1, s.cells[p].item)])
  }

  /** Gives up one reference; the slot joins the chain of empty slots when that was the last. */
  function RemoveRef<T>(s: Slab<T>, p: Ptr): Slab<T>
    requires InUse(s, p) && s.cells[p].refs >= 1
  {
    if s.cells[p].refs == 1 then Slab(s.cells[p := Empty(s.nextEmpty)], p)
    else s.(cells := s.cells[p := Used(s.cells[p].refs - 1, s.cells[p].item)])
  }

  function SetItem<T>(s: Slab<T>, p: Ptr, item: T): Slab<T>
    requires InUse(s, p)
  {
    s.(cells := s.cells[p := Used(s.cells[p].refs, item)])
  }

  // ---------- What the operations keep ----------

  /** A fresh pointer names no filled slot, and no other slot is touched. */
  lemma AddItemKeeps<T>(s: Slab<T>, item: T)
    requires WellFormed(s)
    ensures s.nextEmpty <= |s.cells|
    ensures s.nextEmpty < |s.cells| ==> s.cells[s.nextEmpty].Empty?
    ensures var (t, p) := AddItem(s, item);
      && WellFormed(t)
      && !InUse(s, p) && InUse(t, p) && t.cells[p] == Used(1, item)
      && forall q: Ptr :: q != p ==> (InUse(s, q) <==> InUse(t, q)) && (InUse(s, q) ==> t.cells[q] == s.cells[q])
  {
    NextEmptyIsFree(s);
    var free :| IsFreeList(s, free);
    var (t, p) := AddItem(s, item);
    if p == |s.cells| {
      assert free == [];
      assert IsFreeList(t, []);
    } else {
      assert free[0] == p;
      var rest := free[1..];
      assert forall q :: q in rest ==> q in free;
      assert p !in rest;
      ChainFrame(s.cells, t.cells, s.cells[p].next, rest);
      forall q: Ptr ensures q in rest <==> q < |t.cells| && t.cells[q].Empty? {
        if q != p && q in free {
          assert q in rest by { assert free == [p] + rest; }
        }
      }
      assert IsFreeList(t, rest);
    }
  }

  lemma SameShapeKeeps<T>(s: Slab<T>, t: Slab<T>)
    requires WellFormed(s)
    requires t.nextEmpty == s.nextEmpty && |t.cells| == |s.cells|
    requires forall p: Ptr :: p < |s.cells| && s.cells[p].Empty? ==> t.cells[p] == s.cells[p]
    requires forall p: Ptr :: InUse(s, p) ==> InUse(t, p) && t.cells[p].refs >= 1
    ensures WellFormed(t)
  {
    var free :| IsFreeList(s, free);
    ChainFrame(s.cells, t.cells, s.nextEmpty, free);
    assert IsFreeList(t, free);
  }

  lemma AddRefKeeps<T>(s: Slab<T>, p: Ptr)
    requires WellFormed(s) && InUse(s, p)
    ensures WellFormed(AddRef(s, p))
    ensures forall q: Ptr :: ItemAt(AddRef(s, p), q) == ItemAt(s, q)
  {
    SameShapeKeeps(s, AddRef(s, p));
  }

  lemma SetItemKeeps<T>(s: Slab<T>, p: Ptr, item: T)
    requires WellFormed(s) && InUse(s, p)
    ensures WellFormed(SetItem(s, p, item))
  {
    SameShapeKeeps(s, SetItem(s, p, item));
  }

  lemma RemoveRefKeeps<T>(s: Slab<T>, p: Ptr)
    requires WellFormed(s) && InUse(s, p)
    ensures WellFormed(RemoveRef(s, p))
    ensures forall q: Ptr :: q != p ==> ItemAt(RemoveRef(s, p), q) == ItemAt(s, q)
    ensures ItemAt(RemoveRef(s, p), p) == if s.cells[p].refs == 1 then None else ItemAt(s, p)
  {
    var t := RemoveRef(s, p);
    if s.cells[p].refs == 1 {
      var free :| IsFreeList(s, free);
      assert p !in free;
      ChainFrame(s.cells, t.cells, s.nextEmpty, free);
      assert ([p] + free)[1..] == free;
      assert IsFreeList(t, [p] + free);
    } else {
      SameShapeKeeps(s, t);
    }
  }

  // ---------- Live pointers ----------

  /** Every live pointer names a filled slot whose count is at least its number of live copies. */
  ghost predicate Covers<T>(s: Slab<T>, live: multiset<Ptr>) {
    forall p :: p in live ==> InUse(s, p) && live[p] <= s.cells[p].refs
  }

  /** A reference count of one means the holder of the pointer is its only owner. */
  lemma SoleOwner<T>(s: Slab<T>, live: multiset<Ptr>, p: Ptr)
    requires Covers(s, live) && p in live && s.cells[p].refs == 1
    ensures p !in live - multiset{p}
  {
  }

  // ---------- Duplicating a shared slot ----------

  /** A copy of a shared slot: the copy has one owner, the original one owner less. */
  function Shadow<X>(s: Slab<X>, p: Ptr): (Slab<X>, Ptr)
    requires InUse(s, p) && s.cells[p].refs > 1
    requires s.nextEmpty <= |s.cells|
    requires s.nextEmpty < |s.cells| ==> s.cells[s.nextEmpty].Empty?
  {
    var (t, p') := AddItem(s, s.cells[p].item);
    (RemoveRef(t, p), p')
  }

  lemma ShadowKeeps<X>(s: Slab<X>, live: multiset<Ptr>, p: Ptr)
    requires WellFormed(s) && Covers(s, live) && p in live && s.cells[p].refs > 1
    ensures s.nextEmpty <= |s.cells|
    ensures s.nextEmpty < |s.cells| ==> s.cells[s.nextEmpty].Empty?
    ensures var (t, p') := Shadow(s, p);
      && WellFormed(t) && Covers(t, live - multiset{p} + multiset{p'})
      && !InUse(s, p') && p' !in live && InUse(t, p') && t.cells[p'] == Used(1, s.cells[p].item)
      && forall q: Ptr :: q != p' ==> ItemAt(t, q) == ItemAt(s, q)
  {
    AddItemKeeps(s, s.cells[p].item);
    var (u, p') := AddItem(s, s.cells[p].item);
    RemoveRefKeeps(u, p);
  }

  // ---------- The limits of the stored fields ----------

  /** Largest reference count and largest slab length that the 31-bit fields hold. */
  const LIMIT: nat := 0x7FFF_FFFF

  /** A further item finds an empty slot, or the slab may still grow. */
  predicate HasSlot<T>(s: Slab<T>) {
    s.nextEmpty != |s.cells| || |s.cells| < LIMIT
  }

  /** The next item, or a further reference to some item, does not fit. */
  ghost predicate Exhausted<T>(s: Slab<T>) {
    !HasSlot(s) || exists p: Ptr :: InUse(s, p) && s.cells[p].refs >= LIMIT
  }
}
