/** The durable stores for root runs: one over two dictionaries, one over a table. Both satisfy the same
    specification, which is stated on the map from root run ids to snapshots. */
module RootStore {
  import opened Core
  import opened Tables
  import History

  datatype Event = Event(id: string, kind: string, revision: int)

  /** `content` stands for the Workflow state and the Task Graph state. */
  datatype RootSnapshot = RootSnapshot(rootId: string, threadId: string, revision: int, content: string, lastEvent: Option<Event>)

  datatype RootError = NotInitial | AlreadyExists | UnknownRoot | Stale | IdentityChanged | WrongRevision | WrongEventRevision

  type Roots = map<string, RootSnapshot>

  // ---------------------------------------------------------------- specification

  predicate ThreadTaken(roots: Roots, threadId: string) {
    exists id :: id in roots && roots[id].threadId == threadId
  }

  /** Snapshots are filed under their own id, and no two share a thread. */
  ghost predicate Coherent(roots: Roots) {
    && (forall id :: id in roots ==> roots[id].rootId == id)
    && (forall a, b :: a in roots && b in roots && roots[a].threadId == roots[b].threadId ==> a == b)
  }

  function ValidateCommit(current: RootSnapshot, expected: int, snapshot: RootSnapshot, event: Event): Result<RootSnapshot, RootError> {
    if current.revision != expected then Err(Stale)
    else if snapshot.rootId != current.rootId || snapshot.threadId != current.threadId then Err(IdentityChanged)
    else if snapshot.revision != expected + 1 then Err(WrongRevision)
    else if event.revision != snapshot.revision then Err(WrongEventRevision)
    else Ok(snapshot.(lastEvent := Some(event)))
  }

  function Created(roots: Roots, snapshot: RootSnapshot): Result<RootSnapshot, RootError> {
    if snapshot.revision != 0 then Err(NotInitial)
    else if snapshot.rootId in roots || ThreadTaken(roots, snapshot.threadId) then Err(AlreadyExists)
    else Ok(snapshot)
  }

  function Swapped(roots: Roots, id: string, expected: int, snapshot: RootSnapshot, event: Event): Result<RootSnapshot, RootError> {
    if id !in roots then Err(UnknownRoot) else ValidateCommit(roots[id], expected, snapshot, event)
  }

  function Filed(roots: Roots, r: Result<RootSnapshot, RootError>): Roots {
    match r case Ok(snapshot) => roots[snapshot.rootId := snapshot] case Err(_) => roots
  }

  // ---------------------------------------------------------------- two dictionaries

  class InMemoryRootCheckpointStore {
    var roots: Roots
    var threads: map<string, string>

    /** The thread dictionary is the exact inverse of the main one. */
    ghost predicate Valid() reads this {
      && Coherent(roots)
      && (forall t :: t in threads ==> threads[t] in roots && roots[threads[t]].threadId == t)
      && (forall id :: id in roots ==> roots[id].threadId in threads && threads[roots[id].threadId] == id)
    }

    constructor ()
      ensures Valid() && roots == map[]
    {
      roots, threads := map[], map[];
    }

    method Load(id: string) returns (o: Option<RootSnapshot>)
      ensures o == if id in roots then Some(roots[id]) else None
    {
      o := if id in roots then Some(roots[id]) else None;
    }

    method LoadByThread(threadId: string) returns (o: Option<RootSnapshot>)
      requires Valid()
      ensures o.Some? <==> ThreadTaken(roots, threadId)
      ensures o.Some? ==> o.value.threadId == threadId && o.value.rootId in roots && roots[o.value.rootId] == o.value
    {
      if threadId !in threads { return None; }
      return Some(roots[threads[threadId]]);
    }

    method Create(snapshot: RootSnapshot) returns (r: Result<RootSnapshot, RootError>)
      requires Valid()
      modifies this
      ensures Valid() && r == Created(old(roots), snapshot) && roots == Filed(old(roots), r)
    {
      if snapshot.revision != 0 { return Err(NotInitial); }
      if snapshot.rootId in roots || snapshot.threadId in threads { return Err(AlreadyExists); }
      roots := roots[snapshot.rootId := snapshot];
      threads := threads[snapshot.threadId := snapshot.rootId];
      return Ok(snapshot);
    }

    method CompareAndSwap(id: string, expected: int, snapshot: RootSnapshot, event: Event) returns (r: Result<RootSnapshot, RootError>)
      requires Valid()
      modifies this
      ensures Valid() && r == Swapped(old(roots), id, expected, snapshot, event) && roots == Filed(old(roots), r)
    {
      if id !in roots { return Err(UnknownRoot); }
      var committed := ValidateCommit(roots[id], expected, snapshot, event);
      if committed.Err? { return committed; }
      roots := roots[id := committed.value];
      threads := threads[committed.value.threadId := id];
      return committed;
    }
  }

  // ---------------------------------------------------------------- a table

  /** The columns repeat the snapshot's own fields; `root_run_id` is the primary key and `thread_id` is
      unique. */
  ghost predicate RowsOk(rows: seq<Row<RootSnapshot>>) {
    Unique(rows) && forall i :: 0 <= i < |rows| ==> RowOk(rows[i])
  }

  ghost predicate RowOk(row: Row<RootSnapshot>) {
    row.key == row.value.rootId && row.other == row.value.threadId && row.revision == row.value.revision
  }

  /** A table whose columns agree holds a coherent map. */
  lemma {:induction false} TableCoherent(rows: seq<Row<RootSnapshot>>)
    requires RowsOk(rows)
    ensures Coherent(Table(rows))
  {
    TableHolds(rows);
    forall id | id in Table(rows) ensures exists i :: 0 <= i < |rows| && rows[i].key == id && RowOk(rows[i]) && Table(rows)[id] == rows[i].value {
      assert HasRow(rows, id);
      var i :| 0 <= i < |rows| && rows[i].key == id;
      assert RowOk(rows[i]);
    }
  }

  class SqliteRootCheckpointStore {
    var rows: seq<Row<RootSnapshot>>

    ghost predicate Valid() reads this { RowsOk(rows) }

    ghost function Contents(): Roots reads this { Table(rows) }

    constructor ()
      ensures Valid() && Contents() == map[]
    {
      rows := [];
    }

    method Load(id: string) returns (o: Option<RootSnapshot>)
      requires Valid()
      ensures o == if id in Contents() then Some(Contents()[id]) else None
    {
      var k := FindRow(rows, id);
      if k < 0 { return None; }
      return Some(rows[k].value);
    }

    method LoadByThread(threadId: string) returns (o: Option<RootSnapshot>)
      requires Valid()
      ensures o.Some? <==> ThreadTaken(Contents(), threadId)
      ensures o.Some? ==> o.value.threadId == threadId && o.value.rootId in Contents() && Contents()[o.value.rootId] == o.value
    {
      var k := FindOther(rows, threadId);
      TableHolds(rows);
      assert forall i :: 0 <= i < |rows| ==> RowOk(rows[i]);
      if k < 0 { return None; }
      assert Contents()[rows[k].key].threadId == threadId;
      return Some(rows[k].value);
    }

    /** The INSERT fails when it would break one of the two uniqueness constraints. */
    method Create(snapshot: RootSnapshot) returns (r: Result<RootSnapshot, RootError>)
      requires Valid()
      modifies this
      ensures Valid() && r == Created(old(Contents()), snapshot) && Contents() == Filed(old(Contents()), r) && Coherent(Contents())
    {
      TableCoherent(rows);
      if snapshot.revision != 0 { return Err(NotInitial); }
      var k := FindRow(rows, snapshot.rootId);
      var byThread := LoadByThread(snapshot.threadId);
      if k >= 0 || byThread.Some? { return Err(AlreadyExists); }
      NewRowFits(rows, snapshot);
      rows := rows + [Row(snapshot.rootId, snapshot.threadId, snapshot.revision, snapshot)];
      TableCoherent(rows);
      return Ok(snapshot);
    }

    /** One transaction: select, validate, and update the row if it still has the expected revision. */
    method CompareAndSwap(id: string, expected: int, snapshot: RootSnapshot, event: Event) returns (r: Result<RootSnapshot, RootError>)
      requires Valid()
      modifies this
      ensures Valid() && r == Swapped(old(Contents()), id, expected, snapshot, event) && Contents() == Filed(old(Contents()), r)
      ensures Coherent(Contents())
    {
      TableCoherent(rows);
      var k := FindRow(rows, id);
      if k < 0 { return Err(UnknownRoot); }
      assert RowOk(rows[k]);
      var committed := ValidateCommit(rows[k].value, expected, snapshot, event);
      if committed.Err? { return committed; }
      if rows[k].revision != expected { return Err(Stale); }
      var row := Row(rows[k].key, committed.value.threadId, committed.value.revision, committed.value);
      TableUpdate(rows, k, row);
      rows := rows[k := row];
      TableCoherent(rows);
      return committed;
    }
  }

  lemma {:induction false} NewRowFits(rows: seq<Row<RootSnapshot>>, snapshot: RootSnapshot)
    requires RowsOk(rows) && snapshot.rootId !in Table(rows) && !ThreadTaken(Table(rows), snapshot.threadId)
    ensures var row := Row(snapshot.rootId, snapshot.threadId, snapshot.revision, snapshot);
      RowsOk(rows + [row]) && Table(rows + [row]) == Table(rows)[snapshot.rootId := snapshot]
  {
    TableHolds(rows);
    forall i | 0 <= i < |rows| ensures rows[i].key != snapshot.rootId && rows[i].other != snapshot.threadId {
      assert RowOk(rows[i]) && Table(rows)[rows[i].key].threadId == rows[i].other;
    }
    TableInsert(rows, Row(snapshot.rootId, snapshot.threadId, snapshot.revision, snapshot));
  }

  // ---------------------------------------------------------------- histories

  function Revision(s: RootSnapshot): int { s.revision }

  /** Every transaction of either store is a step of a compare-and-swap history. */
  lemma {:induction false} TransactionsAreSteps(roots: Roots, id: string, expected: int, snapshot: RootSnapshot, event: Event)
    requires Coherent(roots)
    ensures History.Step(Revision, roots, Filed(roots, Created(roots, snapshot))) && Coherent(Filed(roots, Created(roots, snapshot)))
    ensures History.Step(Revision, roots, Filed(roots, Swapped(roots, id, expected, snapshot, event)))
    ensures Coherent(Filed(roots, Swapped(roots, id, expected, snapshot, event)))
  {
    if Created(roots, snapshot).Ok? {
      assert History.Writes(Revision, roots, Filed(roots, Created(roots, snapshot)), snapshot.rootId, snapshot);
    }
    var s := Swapped(roots, id, expected, snapshot, event);
    if s.Ok? { assert History.Writes(Revision, roots, Filed(roots, s), s.value.rootId, s.value); }
  }

  /** No lost update: if a client loaded a snapshot at time `i` and its swap against that snapshot's revision
      succeeds at time `j`, then nothing was committed for that run in between: the snapshot it computed from
      is the immediate predecessor of what it commits. */
  lemma {:induction false} NoLostUpdate(run: seq<Roots>, i: nat, j: nat, id: string, snapshot: RootSnapshot, event: Event)
    requires History.IsRun(Revision, run) && i <= j < |run| && id in run[i]
    requires Swapped(run[j], id, run[i][id].revision, snapshot, event).Ok?
    ensures run[j][id] == run[i][id]
    ensures Swapped(run[j], id, run[i][id].revision, snapshot, event).value.revision == run[i][id].revision + 1
  {
    History.RevisionDetermines(Revision, run, id, i, j);
  }

  /** And if anything was committed in between, the swap is refused as stale. */
  lemma {:induction false} InterferenceIsRefused(run: seq<Roots>, i: nat, j: nat, id: string, snapshot: RootSnapshot, event: Event)
    requires History.IsRun(Revision, run) && i <= j < |run| && id in run[i]
    ensures id in run[j]
    ensures run[j][id] != run[i][id] ==> Swapped(run[j], id, run[i][id].revision, snapshot, event) == Err(Stale)
  {
    History.RevisionDetermines(Revision, run, id, i, j);
  }

  // ---------------------------------------------------------------- exactly what the stores accept

  /** A root is created exactly when it is at revision 0 and neither its id nor its thread is taken. */
  lemma {:induction false} CreateIff(roots: Roots, snapshot: RootSnapshot)
    requires Coherent(roots)
    ensures Created(roots, snapshot).Ok? <==>
      snapshot.revision == 0 && forall id :: id in roots ==> roots[id].rootId != snapshot.rootId && roots[id].threadId != snapshot.threadId
    ensures Created(roots, snapshot).Ok? ==> Filed(roots, Created(roots, snapshot)) == roots[snapshot.rootId := snapshot]
  {
    if snapshot.rootId in roots { assert roots[snapshot.rootId].rootId == snapshot.rootId; }
  }

  /** The same root and thread at the next revision. */
  ghost predicate Follows(current: RootSnapshot, snapshot: RootSnapshot, event: Event) {
    snapshot.rootId == current.rootId && snapshot.threadId == current.threadId
    && snapshot.revision == current.revision + 1 && event.revision == snapshot.revision
  }

  /** Over any run, a client's swap succeeds exactly when what it commits follows what it loaded and nobody else
      committed to that root in between; it then stores what was committed, with its event. */
  lemma {:induction false} SwapSucceedsIff(run: seq<Roots>, i: nat, j: nat, id: string, snapshot: RootSnapshot, event: Event)
    requires History.IsRun(Revision, run) && i <= j < |run| && id in run[i] && Coherent(run[i]) && Coherent(run[j])
    ensures id in run[j]
    ensures var r := Swapped(run[j], id, run[i][id].revision, snapshot, event);
      && (r.Ok? <==> run[j][id] == run[i][id] && Follows(run[i][id], snapshot, event))
      && (r.Ok? ==> Filed(run[j], r) == run[j][id := snapshot.(lastEvent := Some(event))])
  {
    History.RevisionDetermines(Revision, run, id, i, j);
  }
}
