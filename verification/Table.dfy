/** The growable slab as it is stored: a vector of 32-bit metadata words beside a vector of items. */
module Tables {
  import opened Integers
  import opened Options
  import opened Slabs

  /** The top bit of a metadata word marks an empty slot; the other 31 bits then link to the next
      empty slot. In a filled slot they count the references. */
  const EMPTY_MASK: u32 := 0x8000_0000

  predicate IsFilled(meta: u32) {
    meta < EMPTY_MASK
  }

  /** `next | EMPTY_MASK` */
  function EmptyMeta(next: u32): u32 {
    if next < EMPTY_MASK then next + EMPTY_MASK else next
  }

  /** `meta & !EMPTY_MASK` */
  function NextEmpty(meta: u32): u32 {
    meta % EMPTY_MASK
  }

  function Decode<T>(meta: u32, item: T): Cell<T> {
    if IsFilled(meta) then Used(meta, item) else Empty(NextEmpty(meta))
  }

  class Table<T> {
    var metadata: seq<u32>
    var table: seq<T>
    var nextEmpty: u32

    ghost predicate Valid()
      reads this
    {
      |metadata| == |table| <= LIMIT && WellFormed(Value())
    }

    ghost function Value(): Slab<T>
      reads this
      requires |metadata| == |table|
    {
      Slab(seq(|table|, i requires 0 <= i < |table| && |metadata| == |table| reads this =>
        Decode(metadata[i], table[i])), nextEmpty)
    }

    constructor ()
      ensures Valid() && Value() == Slab([], 0)
    {
      metadata, table, nextEmpty := [], [], 0;
      new;
      assert IsFreeList(Value(), []);
    }

    /** Overflows when the slab has no empty slot and cannot grow. */
    method AddItem(item: T) returns (p: Outcome<Ptr>)
      requires Valid()
      modifies this
      ensures Valid() && (p.Done? <==> HasSlot(old(Value())))
      ensures old(Value().nextEmpty <= |Value().cells| &&
                  (Value().nextEmpty < |Value().cells| ==> Value().cells[Value().nextEmpty].Empty?))
      ensures p.Done? ==> (Value(), p.value) == Slabs.AddItem(old(Value()), item)
      ensures p.Overflow? ==> Value() == old(Value())
    {
      ghost var before := Value();
      AddItemKeeps(before, item);
      var index := nextEmpty;
      if index == |table| {
        if index == LIMIT {
          return Overflow;
        }
        table := table + [item];
        metadata := metadata + [1];
        nextEmpty := nextEmpty + 1;
      } else {
        assert before.cells[index] == Decode(metadata[index], table[index]);
        nextEmpty := NextEmpty(metadata[index]);
        metadata := metadata[index := 1];
        table := table[index := item];
      }
      p := Done(index);
      assert Value().cells == Slabs.AddItem(before, item).0.cells;
    }

    method GetItem(p: Ptr) returns (item: T)
      requires Valid() && InUse(Value(), p)
      ensures item == Value().cells[p].item
    {
      item := table[p];
    }

    method IsUniqueTablePtr(p: Ptr) returns (unique: bool)
      requires Valid() && p < |Value().cells|
      ensures unique <==> InUse(Value(), p) && Value().cells[p].refs == 1
    {
      assert Value().cells[p] == Decode(metadata[p], table[p]);
      if !IsFilled(metadata[p]) {
        return false;
      }
      unique := metadata[p] == 1;
    }

    /** Overflows when the reference count of the slot has reached its limit. */
    method CloneTablePtr(p: Ptr) returns (q: Outcome<Ptr>)
      requires Valid() && InUse(Value(), p)
      modifies this
      ensures Valid() && (q.Done? <==> old(Value().cells[p].refs) < LIMIT)
      ensures q.Done? ==> q.value == p && Value() == AddRef(old(Value()), p)
      ensures q.Overflow? ==> Value() == old(Value())
    {
      ghost var before := Value();
      AddRefKeeps(before, p);
      assert before.cells[p] == Decode(metadata[p], table[p]);
      if metadata[p] == LIMIT {
        return Overflow;
      }
      metadata := metadata[p := metadata[p] + 1];
      q := Done(p);
      assert Value().cells == AddRef(before, p).cells;
    }

    /** Gives back the item when this was the last pointer to it. */
    method PopItem(p: Ptr) returns (item: Option<T>)
      requires Valid() && InUse(Value(), p)
      modifies this
      ensures Valid()
      ensures old(Value().cells[p].refs >= 1)
      ensures Value() == RemoveRef(old(Value()), p)
      ensures item == if old(Value().cells[p].refs) == 1 then Some(old(Value().cells[p].item)) else None
    {
      ghost var before := Value();
      RemoveRefKeeps(before, p);
      NextEmptyIsFree(before);
      assert before.cells[p] == Decode(metadata[p], table[p]);
      var refsLeft := metadata[p] - 1;
      metadata := metadata[p := refsLeft];
      if refsLeft == 0 {
        metadata := metadata[p := EmptyMeta(nextEmpty)];
        nextEmpty := p;
        item := Some(table[p]);
      } else {
        item := None;
      }
      assert Value().cells == RemoveRef(before, p).cells;
    }

    method DropTablePtr(p: Ptr)
      requires Valid() && InUse(Value(), p)
      modifies this
      ensures Valid()
      ensures old(Value().cells[p].refs >= 1)
      ensures Value() == RemoveRef(old(Value()), p)
    {
      var _ := PopItem(p);
    }

    /** Duplicates the item for a new sole owner, and gives up the old pointer. */
    method CloneItem(p: Ptr) returns (q: Outcome<Ptr>)
      requires Valid() && InUse(Value(), p) && Value().cells[p].refs > 1
      modifies this
      ensures Valid() && (q.Done? <==> HasSlot(old(Value())))
      ensures old(Value().nextEmpty <= |Value().cells| &&
                  (Value().nextEmpty < |Value().cells| ==> Value().cells[Value().nextEmpty].Empty?))
      ensures q.Done? ==> (Value(), q.value) == Shadow(old(Value()), p)
      ensures q.Overflow? ==> Value() == old(Value())
    {
      AddItemKeeps(Value(), Value().cells[p].item);
      var item := GetItem(p);
      q := AddItem(item);
      if q.Done? {
        DropTablePtr(p);
      }
    }

    /** A write through the mutable reference that only a sole owner is given. */
    method SetItem(p: Ptr, item: T)
      requires Valid() && InUse(Value(), p) && Value().cells[p].refs == 1
      modifies this
      ensures Valid()
      ensures Value() == Slabs.SetItem(old(Value()), p, item)
    {
      ghost var before := Value();
      SetItemKeeps(before, p, item);
      table := table[p := item];
      assert Value().cells == Slabs.SetItem(before, p, item).cells;
    }
  }
}
