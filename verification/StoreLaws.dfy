/** What a client of the allocator sees: every read after a write answers what was written, or what was
    read before. Nothing is said here about the timeline behind it. */
module StoreLaws {
  import opened Options
  import opened RadixTree
  import opened ArrayStorages
  import opened Timelines
  import opened Storages
  import opened Heads
  import opened Commands
  import opened Needs
  import opened SpaceTimes

  /** Reads one item before and after a range of items is written. */
  method WriteThenGet<V, T>(st: SpaceTime<V, T>, id: nat, index: nat, buf: seq<T>, other: nat, at: nat)
    returns (ok: Outcome<Lookup<bool>>, before: Lookup<Option<T>>, after: Lookup<Option<T>>)
    requires st.Valid()
    modifies st, st.storage.tables, st.storage.arrays.dataTable, st.storage.arrays.pageTables
    ensures ok.Done? ==>
      && st.Valid() && (other == id ==> (before.InvalidId? <==> ok.value.InvalidId?))
      && after == if ok.value == Found(true) && other == id && index <= at < index + |buf|
        then Found(Some(buf[at - index])) else before
    ensures ok.Done? && other == id && at + 1 == index + |buf| ==>
      (ok.value == Found(true) <==> before.Found? && before.value.Some?)
  {
    hide Models, Separate, AllValid, LevelsOf, OutOfRoom, Took, Fits, Step;
    before := st.GetItem(other, at);
    after := before;
    ok := st.WriteItems(id, index, buf);
    if ok.Done? {
      after := st.GetItem(other, at);
    }
  }

  /** Reads a range of items after it was written. */
  method WriteThenRead<V, T>(st: SpaceTime<V, T>, id: nat, index: nat, buf: seq<T>, into: array<T>)
    returns (ok: Outcome<Lookup<bool>>, read: Lookup<bool>)
    requires st.Valid() && into.Length == |buf|
    requires
      && into as object != st && into as object != st.storage.tables && into as object != st.storage.arrays.dataTable
    requires forall i :: 0 <= i < |st.storage.arrays.pageTables| ==> st.storage.arrays.pageTables[i] as object != into
    modifies st, st.storage.tables, st.storage.arrays.dataTable, st.storage.arrays.pageTables, into
    ensures ok.Done? ==> st.Valid() && read == ok.value
    ensures into[..] == if ok == Done(Found(true)) then buf else old(into[..])
  {
    hide Models, Separate, AllValid, LevelsOf, OutOfRoom, Took, Fits, Step;
    read := InvalidId;
    ok := st.WriteItems(id, index, buf);
    if ok.Done? {
      read := st.ReadItems(id, index, into);
    }
  }

  /** Reads one item before and after another one, or the same, is written. */
  method SetThenGet<V, T>(st: SpaceTime<V, T>, id: nat, index: nat, value: T, other: nat, at: nat)
    returns (ok: Outcome<Lookup<bool>>, before: Lookup<Option<T>>, after: Lookup<Option<T>>)
    requires st.Valid()
    modifies st, st.storage.tables, st.storage.arrays.dataTable, st.storage.arrays.pageTables
    ensures ok.Done? ==>
      && st.Valid()
      && after == if ok.value == Found(true) && other == id && at == index then Found(Some(value)) else before
    ensures ok.Done? && other == id && at == index ==> match before
      case InvalidId => ok.value == InvalidId
      case Found(item) => ok.value == Found(item.Some?)
  {
    hide Models, Separate, AllValid, LevelsOf, OutOfRoom, Took, Fits, Step;
    before := st.GetItem(other, at);
    after := before;
    ok := st.SetItem(id, index, value);
    if ok.Done? {
      after := st.GetItem(other, at);
    }
  }

  /** Reads an object before and after another one, or the same, is written. */
  method SetObjectThenGet<V, T>(st: SpaceTime<V, T>, id: nat, item: V, other: nat)
    returns (ok: Outcome<bool>, before: Lookup<V>, after: Lookup<V>)
    requires st.Valid()
    modifies st, st.storage.tables, st.storage.arrays.dataTable, st.storage.arrays.pageTables
    ensures ok.Done? ==>
      && st.Valid() && (other == id ==> ok.value == before.Found?)
      && after == if ok.value && other == id then Found(item) else before
  {
    hide Models, Separate, AllValid, LevelsOf, OutOfRoom, Took, Fits, Step;
    before := st.Get(other);
    after := before;
    ok := st.SetObject(id, item);
    if ok.Done? {
      after := st.Get(other);
    }
  }

  /** Reads an object before and after a new one is inserted. */
  method InsertThenGet<V, T>(st: SpaceTime<V, T>, item: V, other: nat)
    returns (id: Outcome<nat>, before: Lookup<V>, after: Lookup<V>)
    requires st.Valid()
    modifies st, st.storage.tables, st.storage.arrays.dataTable, st.storage.arrays.pageTables
    ensures id.Done? ==>
      && st.Valid() && (other == id.value ==> before == InvalidId)
      && after == if other == id.value then Found(item) else before
  {
    hide Models, Separate, AllValid, LevelsOf, OutOfRoom, Took, Fits, Step;
    before := st.Get(other);
    after := before;
    id := st.Insert(item);
    if id.Done? {
      after := st.Get(other);
    }
  }

  /** Reads an item before and after a new array is created. */
  method CreateThenGet<V, T>(st: SpaceTime<V, T>, fill: T, size: nat, other: nat, at: nat)
    returns (id: Outcome<nat>, before: Lookup<Option<T>>, after: Lookup<Option<T>>)
    requires st.Valid()
    modifies st, st.storage.tables, st.storage.arrays.dataTable, st.storage.arrays.pageTables
    ensures id.Done? ==>
      && st.Valid() && (other == id.value ==> before == InvalidId)
      && after == if other == id.value then Found(if at < size then Some(fill) else None) else before
  {
    hide Models, Separate, AllValid, LevelsOf, OutOfRoom, Took, Fits, Step;
    before := st.GetItem(other, at);
    after := before;
    id := st.InsertArray(fill, size);
    if id.Done? {
      after := st.GetItem(other, at);
    }
  }

  /** Creates an array, writes to it, and resets it: every item is what it was created with. */
  method ResetThenGet<V, T>(st: SpaceTime<V, T>, fill: T, size: nat, index: nat, buf: seq<T>, at: nat)
    returns (done: bool, written: Lookup<Option<T>>, after: Lookup<Option<T>>)
    requires st.Valid()
    modifies st, st.storage.tables, st.storage.arrays.dataTable, st.storage.arrays.pageTables
    ensures done ==> st.Valid() && after == Found(if at < size then Some(fill) else None)
    ensures done ==> written == Found(
      if at >= size then None
      else Some(if index <= at < index + |buf| <= size then buf[at - index] else fill))
  {
    hide Models, Separate, AllValid, LevelsOf, OutOfRoom, Took, Fits, Step;
    done, written, after := false, InvalidId, InvalidId;
    var id := st.InsertArray(fill, size);
    if id.Done? {
      var ok := st.WriteItems(id.value, index, buf);
      if ok.Done? {
        written := st.GetItem(id.value, at);
        var reset := st.ResetArray(id.value);
        if reset.Done? {
          after := st.GetItem(id.value, at);
          done := true;
        }
      }
    }
  }

  /** Drops a snapshot: it cannot be checked out any more, any other one still can exactly if it could
      before, and HEAD reads as before. */
  method DropThenCheckout<V, T>(st: SpaceTime<V, T>, id: SnapshotId, other: SnapshotId, objectId: nat)
    returns (dropped: bool, before: Lookup<V>, after: Lookup<V>, again: bool, found: bool)
    requires st.Valid()
    modifies st, st.storage.tables, st.storage.arrays.dataTable, st.storage.arrays.pageTables
    ensures st.Valid() && dropped == old(st.model.Has(id)) && before == after && !again
    ensures found == (other != id && old(st.model.Has(other)))
  {
    hide Models, Separate, AllValid, LevelsOf, OutOfRoom, Took, Fits, Step;
    before := st.Get(objectId);
    dropped := st.DropSnapshot(id);
    after := st.Get(objectId);
    again := st.Checkout(id);
    found := st.Checkout(other);
  }
}
