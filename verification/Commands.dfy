/** Runs of the allocator, as its clients see them: commands on a timeline of plain contents. */
module Commands {
  import opened Options
  import opened Slabs
  import opened Instances
  import opened Timelines
  import opened Storages

  datatype Command<V, T> =
    | Insert(item: V)
    | InsertArray(fill: T, size: nat)
    | SetObject(id: nat, item: V)
    | SetItem(id: nat, index: nat, value: T)
    | WriteItems(id: nat, index: nat, buf: seq<T>)
    | ResetArray(id: nat)
    | MakeSnapshot
    | DropSnapshot(snapshot: SnapshotId)
    | Checkout(snapshot: SnapshotId)

  function Overwrite<T>(a: ArrayValue<T>, index: nat, buf: seq<T>): ArrayValue<T>
    requires index + |buf| <= |a.items|
  {
    a.(items := a.items[..index] + buf + a.items[index + |buf|..])
  }

  lemma Overwritten<T>(a: ArrayValue<T>, index: nat, buf: seq<T>)
    requires index + |buf| <= |a.items|
    ensures var b := Overwrite(a, index, buf);
      && b == a.(items := a.items[..index] + buf + a.items[index + |buf|..]) && |b.items| == |a.items|
      && forall j :: 0 <= j < |a.items| ==>
        b.items[j] == if index <= j < index + |buf| then buf[j - index] else a.items[j]
  {
  }

  function ChangeArrayValue<V, T>(c: Contents<V, T>, id: nat, a: ArrayValue<T>): Contents<V, T>
    requires id < |c.arrays|
  {
    c.(arrays := c.arrays[id := a])
  }

  /** What a command makes of the contents of HEAD. An id or a range out of bounds changes nothing. */
  function Apply<V, T>(c: Contents<V, T>, command: Command<V, T>): Contents<V, T> {
    match command
    case Insert(item) => c.(objects := c.objects + [item])
    case InsertArray(fill, size) => c.(arrays := c.arrays + [ArrayValue(fill, Repeat(fill, size))])
    case SetObject(id, item) => if id < |c.objects| then c.(objects := c.objects[id := item]) else c
    case SetItem(id, index, value) =>
      if id < |c.arrays| && index < |c.arrays[id].items|
        then ChangeArrayValue(c, id, c.arrays[id].(items := c.arrays[id].items[index := value])) else c
    case WriteItems(id, index, buf) =>
      if id < |c.arrays| && index + |buf| <= |c.arrays[id].items|
        then ChangeArrayValue(c, id, Overwrite(c.arrays[id], index, buf)) else c
    case ResetArray(id) =>
      if id < |c.arrays| then ChangeArrayValue(c, id,
        c.arrays[id].(items := Repeat(c.arrays[id].fill, |c.arrays[id].items|))) else c
    case MakeSnapshot => c
    case DropSnapshot(_) => c
    case Checkout(_) => c
  }

  function Step<V, T>(m: Timeline<Contents<V, T>>, command: Command<V, T>): Timeline<Contents<V, T>> {
    match command
    case MakeSnapshot => m.MakeSnapshot()
    case DropSnapshot(id) => if m.Has(id) then m.DropSnapshot(id) else m
    case Checkout(id) => if m.Has(id) then m.Checkout(id) else m
    case _ => m.Change(Apply(m.head, command))
  }

  function Run<V, T>(m: Timeline<Contents<V, T>>, commands: seq<Command<V, T>>): Timeline<Contents<V, T>> {
    if commands == [] then m else Step(Run(m, commands[..|commands| - 1]), commands[|commands| - 1])
  }

  /** Runs go on command by command. */
  lemma RunUnfolds<V, T>(m: Timeline<Contents<V, T>>, commands: seq<Command<V, T>>, c: Command<V, T>)
    ensures Run(m, []) == m && Run(m, commands + [c]) == Step(Run(m, commands), c)
  {
    assert (commands + [c])[..|commands|] == commands;
  }

  /** No run that keeps a snapshot can change what it holds. */
  lemma {:induction false} SnapshotIsFrozen<V, T>(m: Timeline<Contents<V, T>>, commands: seq<Command<V, T>>,
                                                  id: SnapshotId)
    requires m.Valid() && m.Has(id) && DropSnapshot(id) !in commands
    ensures Run(m, commands).Valid() && Run(m, commands).Has(id)
    ensures Run(m, commands).snapshots[id] == m.snapshots[id]
  {
    if commands != [] {
      var n := |commands| - 1;
      SnapshotIsFrozen(m, commands[..n], id);
      assert commands[n] in commands;
    }
  }

  /** Checking out a snapshot restores exactly what HEAD was when the snapshot was made, whatever
      was done in between. */
  lemma CheckoutRestores<V, T>(m: Timeline<Contents<V, T>>, commands: seq<Command<V, T>>)
    requires m.Valid() && DropSnapshot(|m.snapshots|) !in commands
    ensures var later := Run(Step(m, MakeSnapshot), commands);
      later.Has(|m.snapshots|) && Step(later, Checkout(|m.snapshots|)).head == m.head
  {
  }

  /** Array `id` exists in HEAD and in every snapshot from number `first` on, with the same fill and size. */
  ghost predicate HasArray<V, T>(m: Timeline<Contents<V, T>>, first: SnapshotId, id: nat, fill: T, size: nat) {
    && Shaped(m.head, id, fill, size)
    && forall k :: first <= k < |m.snapshots| && m.snapshots[k].Some? ==> Shaped(m.snapshots[k].value, id, fill, size)
  }

  ghost predicate Shaped<V, T>(c: Contents<V, T>, id: nat, fill: T, size: nat) {
    id < |c.arrays| && c.arrays[id].fill == fill && |c.arrays[id].items| == size
  }

  lemma {:induction false} FillIsKept<V, T>(m: Timeline<Contents<V, T>>, commands: seq<Command<V, T>>,
                                            first: SnapshotId, id: nat, fill: T, size: nat)
    requires HasArray(m, first, id, fill, size) && first <= |m.snapshots|
    requires forall c :: c in commands && c.Checkout? ==> c.snapshot >= first
    ensures HasArray(Run(m, commands), first, id, fill, size) && first <= |Run(m, commands).snapshots|
  {
    if commands != [] {
      var n := |commands| - 1;
      FillIsKept(m, commands[..n], first, id, fill, size);
      assert commands[n] in commands;
      var c := Run(m, commands[..n]);
      assert Shaped(Apply(c.head, commands[n]), id, fill, size);
    }
  }

  /** A reset makes every item of an array the value given at creation, whatever was written to it
      and whichever later snapshots were made and checked out in between. */
  lemma ResetRestores<V, T>(m: Timeline<Contents<V, T>>, fill: T, size: nat, commands: seq<Command<V, T>>)
    requires forall c :: c in commands && c.Checkout? ==> c.snapshot >= |m.snapshots|
    ensures var id, created := |m.head.arrays|, Step(m, InsertArray(fill, size));
      var c := Step(Run(created, commands), ResetArray(id)).head;
      id < |c.arrays| && c.arrays[id].items == Repeat(fill, size)
  {
    FillIsKept(Step(m, InsertArray(fill, size)), commands, |m.snapshots|, |m.head.arrays|, fill, size);
  }
}
