/** What a snapshotting allocator promises: a current state, HEAD, beside frozen copies of past
    states. Snapshot ids are handed out in order and never used twice. */
module Timelines {
  import opened Options

  type SnapshotId = nat

  datatype Timeline<S> = Timeline(head: S, checkedOut: Option<SnapshotId>, snapshots: seq<Option<S>>) {

    predicate Has(id: SnapshotId) {
      id < |snapshots| && snapshots[id].Some?
    }

    /** A checked-out HEAD is the snapshot it was checked out from. */
    ghost predicate Valid() {
      checkedOut.Some? ==> Has(checkedOut.value) && snapshots[checkedOut.value] == Some(head)
    }

    function Change(state: S): Timeline<S> {
      Timeline(state, None, snapshots)
    }

    function MakeSnapshot(): Timeline<S> {
      Timeline(head, Some(|snapshots|), snapshots + [Some(head)])
    }

    function DropSnapshot(id: SnapshotId): Timeline<S>
      requires Has(id)
    {
      Timeline(head, if checkedOut == Some(id) then None else checkedOut, snapshots[id := None])
    }

    function Checkout(id: SnapshotId): Timeline<S>
      requires Has(id)
    {
      Timeline(snapshots[id].value, Some(id), snapshots)
    }
  }
}
