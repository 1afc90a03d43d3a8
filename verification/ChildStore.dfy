/** The durable stores for child checkpoints, over two dictionaries and over a table, and the submission
    journal over any interleaving of their clients. */
module ChildStore {
  import opened Core
  import opened Tables
  import opened Child
  import History

  type Children = map<string, ChildSnapshot>

  // ---------------------------------------------------------------- specification

  predicate RunIdTaken(children: Children, runId: string) {
    exists ns :: ns in children && children[ns].binding.childRunId == runId
  }

  /** What the snapshot type itself guarantees. */
  predicate Sane(c: ChildSnapshot) {
    JournalOk(c) && c.lease.epoch >= c.binding.leaseEpoch
  }

  /** Snapshots are filed under their own namespace, and no two share a child run id. */
  ghost predicate Coherent(children: Children) {
    && (forall ns :: ns in children ==> children[ns].binding.checkpointNs == ns)
    && (forall a, b :: a in children && b in children && children[a].binding.childRunId == children[b].binding.childRunId ==> a == b)
  }

  /** `create_or_load`: an existing child with the same binding and manifest is returned as it is. */
  function CreatedOrLoaded(children: Children, s: ChildSnapshot): Result<ChildSnapshot, ChildError> {
    if s.revision != 0 || s.status != ChildCreated then Err(NotInitial)
    else if s.binding.checkpointNs in children then
      var existing := children[s.binding.checkpointNs];
      if existing.binding != s.binding then Err(BindingMismatch)
      else if existing.manifest != s.manifest then Err(ManifestMismatch)
      else Ok(existing)
    else if RunIdTaken(children, s.binding.childRunId) then Err(NamespaceTaken)
    else Ok(s)
  }

  function Swapped(children: Children, ns: string, expected: int, next: ChildSnapshot, event: ChildEvent): Result<ChildSnapshot, ChildError> {
    if ns !in children then Err(MissingChild) else ValidateCommit(children[ns], expected, next, event)
  }

  function Filed(children: Children, r: Result<ChildSnapshot, ChildError>): Children {
    match r case Ok(s) => children[s.binding.checkpointNs := s] case Err(_) => children
  }

  // ---------------------------------------------------------------- two dictionaries

  class InMemoryChildCheckpointStore {
    var children: Children
    var runIds: map<string, string>

    /** The run id dictionary is the exact inverse of the main one. */
    ghost predicate Valid() reads this {
      && Coherent(children)
      && (forall id :: id in runIds ==> runIds[id] in children && children[runIds[id]].binding.childRunId == id)
      && (forall ns :: ns in children ==> children[ns].binding.childRunId in runIds && runIds[children[ns].binding.childRunId] == ns)
    }

    constructor ()
      ensures Valid() && children == map[]
    {
      children, runIds := map[], map[];
    }

    method Load(ns: string) returns (o: Option<ChildSnapshot>)
      ensures o == if ns in children then Some(children[ns]) else None
    {
      o := if ns in children then Some(children[ns]) else None;
    }

    method LoadByChildRunId(runId: string) returns (o: Option<ChildSnapshot>)
      requires Valid()
      ensures o.Some? <==> RunIdTaken(children, runId)
      ensures o.Some? ==> o.value.binding.childRunId == runId && o.value.binding.checkpointNs in children && children[o.value.binding.checkpointNs] == o.value
    {
      if runId !in runIds { return None; }
      return Some(children[runIds[runId]]);
    }

    method CreateOrLoad(s: ChildSnapshot) returns (r: Result<ChildSnapshot, ChildError>)
      requires Valid()
      modifies this
      ensures Valid() && r == CreatedOrLoaded(old(children), s) && children == Filed(old(children), r)
    {
      if s.revision != 0 || s.status != ChildCreated { return Err(NotInitial); }
      var key := s.binding.checkpointNs;
      if key in children {
        var existing := children[key];
        if existing.binding != s.binding { return Err(BindingMismatch); }
        if existing.manifest != s.manifest { return Err(ManifestMismatch); }
        return Ok(existing);
      }
      if s.binding.childRunId in runIds && runIds[s.binding.childRunId] != key { return Err(NamespaceTaken); }
      assert !RunIdTaken(children, s.binding.childRunId);
      children := children[key := s];
      runIds := runIds[s.binding.childRunId := key];
      return Ok(s);
    }

    method CompareAndSwap(ns: string, expected: int, next: ChildSnapshot, event: ChildEvent) returns (r: Result<ChildSnapshot, ChildError>)
      requires Valid()
      modifies this
      ensures Valid() && r == Swapped(old(children), ns, expected, next, event) && children == Filed(old(children), r)
    {
      if ns !in children { return Err(MissingChild); }
      var committed := ValidateCommit(children[ns], expected, next, event);
      if committed.Err? { return committed; }
      children := children[ns := committed.value];
      return committed;
    }

    /** `persist_child_submission` through this store. */
    method PersistSubmission(s: Submission, eventId: string) returns (r: Result<ChildSnapshot, ChildError>)
      requires Valid()
      modifies this
      ensures Valid()
      ensures !RunIdTaken(old(children), s.childRunId) ==> r == Err(MissingChild) && children == old(children)
      ensures RunIdTaken(old(children), s.childRunId) ==>
        exists ns :: ns in old(children) && old(children)[ns].binding.childRunId == s.childRunId
          && Answered(old(children), ns, Persist(old(children)[ns], s, eventId), r, children)
      ensures forall ns :: ns in old(children) && Sane(old(children)[ns]) && Fenced(old(children)[ns], s) && IsNext(old(children)[ns], s) ==>
        r == Ok(WithSubmission(old(children)[ns], s, eventId)) && children == old(children)[ns := WithSubmission(old(children)[ns], s, eventId)]
    {
      ghost var before := children;
      var loaded := LoadByChildRunId(s.childRunId);
      if loaded.None? { return Err(MissingChild); }
      var c := loaded.value;
      var request := Persist(c, s, eventId);
      match request {
        case Err(e) => r := Err(e);
        case Ok(Nothing) => r := Ok(c);
        case Ok(Commit(next, event)) =>
          r := CompareAndSwap(c.binding.checkpointNs, c.revision, next, event);
      }
      assert Answered(old(children), c.binding.checkpointNs, request, r, children);
      forall ns | ns in before && Sane(before[ns]) && Fenced(before[ns], s) && IsNext(before[ns], s)
        ensures r == Ok(WithSubmission(before[ns], s, eventId)) && children == before[ns := WithSubmission(before[ns], s, eventId)]
      {
        PersistStored(before, ns, s, eventId);
      }
    }

    /** `acknowledge_child_submission` through this store. */
    method AcknowledgeSubmission(runId: string, a: Ack, eventId: string) returns (r: Result<ChildSnapshot, ChildError>)
      requires Valid()
      modifies this
      ensures Valid()
      ensures !RunIdTaken(old(children), runId) ==> r == Err(MissingChild) && children == old(children)
      ensures RunIdTaken(old(children), runId) ==>
        exists ns :: ns in old(children) && old(children)[ns].binding.childRunId == runId
          && Answered(old(children), ns, Acknowledge(old(children)[ns], a, eventId), r, children)
      ensures forall ns :: ns in old(children) && old(children)[ns].binding.childRunId == runId && Sane(old(children)[ns])
                           && Acceptable(old(children)[ns], a) ==>
        && r.Ok? && children == old(children)[ns := r.value]
        && r.value == WithAck(old(children)[ns], a).(lastEvent := r.value.lastEvent)
    {
      ghost var before := children;
      var loaded := LoadByChildRunId(runId);
      if loaded.None? { return Err(MissingChild); }
      var c := loaded.value;
      var request := Acknowledge(c, a, eventId);
      match request {
        case Err(e) => r := Err(e);
        case Ok(Nothing) => r := Ok(c);
        case Ok(Commit(next, event)) =>
          r := CompareAndSwap(c.binding.checkpointNs, c.revision, next, event);
      }
      assert Answered(old(children), c.binding.checkpointNs, request, r, children);
      forall ns | ns in before && before[ns].binding.childRunId == runId && Sane(before[ns]) && Acceptable(before[ns], a)
        ensures r.Ok? && children == before[ns := r.value] && r.value == WithAck(before[ns], a).(lastEvent := r.value.lastEvent)
      {
        AckStored(before, ns, a, eventId);
      }
    }
  }

  /** The stored checkpoint with one more submission. */
  ghost function WithSubmission(c: ChildSnapshot, s: Submission, eventId: string): ChildSnapshot {
    c.(revision := c.revision + 1, submissions := c.submissions + [s],
       lastEvent := Some(ChildEvent(eventId, "candidate_submission_persisted", c.revision + 1)))
  }

  ghost predicate Acceptable(c: ChildSnapshot, a: Ack) {
    Delivered(c, a) && FirstAck(c, a) && LeaseFits(c, a)
  }

  /** The next submission under the active lease is stored. */
  lemma {:induction false} PersistStored(children: Children, ns: string, s: Submission, eventId: string)
    requires ns in children && Sane(children[ns]) && Fenced(children[ns], s) && IsNext(children[ns], s)
    ensures Persist(children[ns], s, eventId).Ok? && Persist(children[ns], s, eventId).value.Commit?
    ensures var q := Persist(children[ns], s, eventId).value;
      Swapped(children, ns, children[ns].revision, q.next, q.event) == Ok(WithSubmission(children[ns], s, eventId))
  {
    PersistIff(children[ns], s, eventId);
    PersistCommits(children[ns], s, eventId);
  }

  lemma {:induction false} AckStored(children: Children, ns: string, a: Ack, eventId: string)
    requires ns in children && Sane(children[ns]) && Acceptable(children[ns], a)
    ensures Acknowledge(children[ns], a, eventId).Ok? && Acknowledge(children[ns], a, eventId).value.Commit?
    ensures var q := Acknowledge(children[ns], a, eventId).value;
      && q.next == WithAck(children[ns], a)
      && Swapped(children, ns, children[ns].revision, q.next, q.event) == Ok(q.next.(lastEvent := Some(q.event)))
  {
    AcknowledgeIff(children[ns], a, eventId);
    AcknowledgeCommits(children[ns], a, eventId);
  }

  /** How a request computed from the current checkpoint is answered. */
  ghost predicate Answered(before: Children, ns: string, request: Result<Request, ChildError>, r: Result<ChildSnapshot, ChildError>, after: Children)
    requires ns in before
  {
    match request
    case Err(e) => r == Err(e) && after == before
    case Ok(Nothing) => r == Ok(before[ns]) && after == before
    case Ok(Commit(next, event)) => r == Swapped(before, ns, before[ns].revision, next, event) && after == Filed(before, r)
  }

  /** Computed from the current checkpoint, a persist or an acknowledgement always commits. */
  lemma {:induction false} PersistCommits(c: ChildSnapshot, s: Submission, eventId: string)
    requires Sane(c) && Persist(c, s, eventId).Ok? && Persist(c, s, eventId).value.Commit?
    ensures var q := Persist(c, s, eventId).value; ValidateCommit(c, c.revision, q.next, q.event) == Ok(q.next.(lastEvent := Some(q.event)))
  {
  }

  lemma {:induction false} AcknowledgeCommits(c: ChildSnapshot, a: Ack, eventId: string)
    requires Sane(c) && Acknowledge(c, a, eventId).Ok? && Acknowledge(c, a, eventId).value.Commit?
    ensures var q := Acknowledge(c, a, eventId).value; ValidateCommit(c, c.revision, q.next, q.event) == Ok(q.next.(lastEvent := Some(q.event)))
  {
  }

  // ---------------------------------------------------------------- a table

  ghost predicate RowOk(row: Row<ChildSnapshot>) {
    row.key == row.value.binding.checkpointNs && row.other == row.value.binding.childRunId && row.revision == row.value.revision
  }

  /** `checkpoint_ns` is the primary key and `child_run_id` is unique. */
  ghost predicate RowsOk(rows: seq<Row<ChildSnapshot>>) {
    Unique(rows) && forall i :: 0 <= i < |rows| ==> RowOk(rows[i])
  }

  class SqliteChildCheckpointStore {
    var rows: seq<Row<ChildSnapshot>>

    ghost predicate Valid() reads this { RowsOk(rows) }

    ghost function Contents(): Children reads this { Table(rows) }

    constructor ()
      ensures Valid() && Contents() == map[]
    {
      rows := [];
    }

    method Load(ns: string) returns (o: Option<ChildSnapshot>)
      requires Valid()
      ensures o == if ns in Contents() then Some(Contents()[ns]) else None
    {
      var k := FindRow(rows, ns);
      if k < 0 { return None; }
      return Some(rows[k].value);
    }

    method LoadByChildRunId(runId: string) returns (o: Option<ChildSnapshot>)
      requires Valid()
      ensures o.Some? <==> RunIdTaken(Contents(), runId)
      ensures o.Some? ==> o.value.binding.childRunId == runId && o.value.binding.checkpointNs in Contents() && Contents()[o.value.binding.checkpointNs] == o.value
    {
      var k := FindOther(rows, runId);
      TableHolds(rows);
      assert forall i :: 0 <= i < |rows| ==> RowOk(rows[i]);
      if k < 0 { return None; }
      assert Contents()[rows[k].key].binding.childRunId == runId;
      return Some(rows[k].value);
    }

    /** An INSERT that would break a uniqueness constraint is reported as a conflict. */
    method CreateOrLoad(s: ChildSnapshot) returns (r: Result<ChildSnapshot, ChildError>)
      requires Valid()
      modifies this
      ensures Valid() && r == CreatedOrLoaded(old(Contents()), s) && Contents() == Filed(old(Contents()), r)
    {
      if s.revision != 0 || s.status != ChildCreated { return Err(NotInitial); }
      var k := FindRow(rows, s.binding.checkpointNs);
      if k >= 0 {
        assert RowOk(rows[k]);
        var existing := rows[k].value;
        if existing.binding != s.binding { return Err(BindingMismatch); }
        if existing.manifest != s.manifest { return Err(ManifestMismatch); }
        return Ok(existing);
      }
      var taken := LoadByChildRunId(s.binding.childRunId);
      if taken.Some? { return Err(NamespaceTaken); }
      NewRowFits(rows, s);
      rows := rows + [Row(s.binding.checkpointNs, s.binding.childRunId, s.revision, s)];
      return Ok(s);
    }

    method CompareAndSwap(ns: string, expected: int, next: ChildSnapshot, event: ChildEvent) returns (r: Result<ChildSnapshot, ChildError>)
      requires Valid()
      modifies this
      ensures Valid() && r == Swapped(old(Contents()), ns, expected, next, event) && Contents() == Filed(old(Contents()), r)
    {
      var k := FindRow(rows, ns);
      if k < 0 { return Err(MissingChild); }
      assert RowOk(rows[k]);
      var committed := ValidateCommit(rows[k].value, expected, next, event);
      if committed.Err? { return committed; }
      if rows[k].revision != expected { return Err(StaleRevision); }
      var row := rows[k].(revision := committed.value.revision, value := committed.value);
      TableUpdate(rows, k, row);
      rows := rows[k := row];
      return committed;
    }
  }

  lemma {:induction false} NewRowFits(rows: seq<Row<ChildSnapshot>>, s: ChildSnapshot)
    requires RowsOk(rows) && s.binding.checkpointNs !in Table(rows) && !RunIdTaken(Table(rows), s.binding.childRunId)
    ensures var row := Row(s.binding.checkpointNs, s.binding.childRunId, s.revision, s);
      RowsOk(rows + [row]) && Table(rows + [row]) == Table(rows)[s.binding.checkpointNs := s]
  {
    TableHolds(rows);
    forall i | 0 <= i < |rows| ensures rows[i].key != s.binding.checkpointNs && rows[i].other != s.binding.childRunId {
      assert RowOk(rows[i]) && Table(rows)[rows[i].key].binding.childRunId == rows[i].other;
    }
    TableInsert(rows, Row(s.binding.checkpointNs, s.binding.childRunId, s.revision, s));
  }

  // ---------------------------------------------------------------- the journal over any run

  function Revision(c: ChildSnapshot): int { c.revision }

  /** A child as it is first created: nothing submitted, the lease of its binding. */
  ghost predicate Fresh(c: ChildSnapshot) {
    c.revision == 0 && c.submissions == [] && c.acks == [] && c.lease.epoch == c.binding.leaseEpoch
  }

  /** What a client may compute from a checkpoint it loaded: a persist, an acknowledgement, or a change that
      leaves the journal and the lease alone. */
  ghost predicate Computes(loaded: ChildSnapshot, next: ChildSnapshot, event: ChildEvent) {
    || (exists s, id :: Persist(loaded, s, id) == Ok(Commit(next, event)))
    || (exists a, id :: Acknowledge(loaded, a, id) == Ok(Commit(next, event)))
    || (next.lease == loaded.lease && next.submissions == loaded.submissions && next.acks == loaded.acks)
  }

  /** A client commits what it computed from the checkpoint it loaded at some earlier time `i`. */
  ghost predicate CommitsFrom(run: seq<Children>, i: nat, j: nat, ns: string, next: ChildSnapshot, event: ChildEvent)
    requires i <= j < |run| - 1
  {
    && ns in run[i] && Computes(run[i][ns], next, event)
    && Swapped(run[j], ns, run[i][ns].revision, next, event).Ok?
    && run[j + 1] == Filed(run[j], Swapped(run[j], ns, run[i][ns].revision, next, event))
  }

  ghost predicate CreatesFresh(before: Children, after: Children) {
    exists c: ChildSnapshot :: Fresh(c) && Sane(c) && c.binding.checkpointNs !in before && after == before[c.binding.checkpointNs := c]
  }

  ghost predicate ChildStep(run: seq<Children>, j: nat)
    requires j < |run| - 1
  {
    || run[j + 1] == run[j]
    || CreatesFresh(run[j], run[j + 1])
    || exists i: nat, ns, next, event :: i <= j && CommitsFrom(run, i, j, ns, next, event)
  }

  ghost predicate ChildRun(run: seq<Children>) {
    run != [] && run[0] == map[] && forall j :: 0 <= j < |run| - 1 ==> ChildStep(run, j)
  }

  ghost predicate AllFiled(children: Children) {
    forall ns :: ns in children ==> children[ns].binding.checkpointNs == ns
  }

  lemma {:induction false} StepIsStep(run: seq<Children>, j: nat)
    requires j < |run| - 1 && ChildStep(run, j) && AllFiled(run[j])
    ensures History.Step(Revision, run[j], run[j + 1]) && AllFiled(run[j + 1])
  {
    if CreatesFresh(run[j], run[j + 1]) {
      var c: ChildSnapshot :| Fresh(c) && Sane(c) && c.binding.checkpointNs !in run[j] && run[j + 1] == run[j][c.binding.checkpointNs := c];
      assert History.Writes(Revision, run[j], run[j + 1], c.binding.checkpointNs, c);
    } else if run[j + 1] != run[j] {
      var i: nat, ns, next, event :| i <= j && CommitsFrom(run, i, j, ns, next, event);
      var v := Swapped(run[j], ns, run[i][ns].revision, next, event).value;
      assert History.Writes(Revision, run[j], run[j + 1], ns, v);
    }
  }

  lemma {:induction false} RunIsRun(run: seq<Children>, n: nat)
    requires ChildRun(run) && n < |run|
    ensures AllFiled(run[n]) && History.IsRun(Revision, run[..n + 1])
    decreases n
  {
    if n > 0 {
      RunIsRun(run, n - 1);
      assert ChildStep(run, n - 1);
      StepIsStep(run, n - 1);
      History.RunExtends(Revision, run, n);
    }
  }

  lemma {:induction false} ComputedKeepsDiscipline(c: ChildSnapshot, next: ChildSnapshot, event: ChildEvent, expected: int)
    requires Disciplined(c) && Computes(c, next, event) && ValidateCommit(c, expected, next, event).Ok?
    ensures Disciplined(ValidateCommit(c, expected, next, event).value)
  {
    CommittedIs(c, expected, next, event);
    if s, id :| Persist(c, s, id) == Ok(Commit(next, event)) {
      PersistKeepsDiscipline(c, s, id);
    } else if a, id :| Acknowledge(c, a, id) == Ok(Commit(next, event)) {
      AcknowledgeKeepsDiscipline(c, a, id);
    } else {
      OtherCommitsKeepDiscipline(c, next);
    }
  }

  ghost predicate AllDisciplined(children: Children) {
    forall ns :: ns in children ==> Disciplined(children[ns])
  }

  lemma {:induction false} StepKeepsDiscipline(run: seq<Children>, j: nat)
    requires ChildRun(run) && j < |run| - 1 && AllDisciplined(run[j])
    ensures AllDisciplined(run[j + 1])
  {
    assert ChildStep(run, j);
    RunIsRun(run, j);
    if run[j + 1] != run[j] && !CreatesFresh(run[j], run[j + 1]) {
      var i: nat, ns, next, event :| i <= j && CommitsFrom(run, i, j, ns, next, event);
      History.RevisionDetermines(Revision, run[..j + 1], ns, i, j);
      assert run[i][ns] == run[j][ns];
      ComputedKeepsDiscipline(run[j][ns], next, event, run[i][ns].revision);
    }
  }

  /** Over any interleaving of clients that persist, acknowledge or change other fields, each from a checkpoint
      it loaded at any earlier time, every journal stays disciplined. */
  lemma {:induction false} JournalHolds(run: seq<Children>, n: nat)
    requires ChildRun(run) && n < |run|
    ensures AllDisciplined(run[n])
    decreases n
  {
    if n > 0 {
      JournalHolds(run, n - 1);
      StepKeepsDiscipline(run, n - 1);
    }
  }

  /** So in every reachable journal submission `i` has sequence `i + 1` and was fenced by epoch `i` of its child,
      every submission but the last was acknowledged once and asked to be repaired, and the active epoch is that
      of the last submission, or the next one once its repair is acknowledged. */
  lemma {:induction false} JournalsOverRuns(run: seq<Children>, n: nat, ns: string)
    requires ChildRun(run) && n < |run| && ns in run[n]
    ensures var c := run[n][ns]; forall i :: 0 <= i < |c.submissions| ==>
      && c.submissions[i].sequence == i + 1 && c.submissions[i].leaseEpoch == c.binding.leaseEpoch + i
      && (i < |c.submissions| - 1 ==> AckedOnce(c, c.submissions[i].id) && Repaired(c, c.submissions[i].id))
    ensures var c, last := run[n][ns], |run[n][ns].submissions| - 1;
      c.lease.epoch == if last < 0 then c.binding.leaseEpoch
                       else c.submissions[last].leaseEpoch + if Repaired(c, c.submissions[last].id) then 1 else 0
  {
    JournalHolds(run, n);
    var c := run[n][ns];
    forall i | 0 <= i < |c.submissions|
      ensures c.submissions[i].sequence == i + 1 && c.submissions[i].leaseEpoch == c.binding.leaseEpoch + i
      ensures i < |c.submissions| - 1 ==> AckedOnce(c, c.submissions[i].id) && Repaired(c, c.submissions[i].id)
    {
      JournalShape(c, i);
    }
    ActiveEpoch(c);
  }

  /** What only grows while a child exists. */
  ghost predicate Grew(c: ChildSnapshot, c': ChildSnapshot) {
    && c'.binding == c.binding && c'.manifest == c.manifest && c.revision <= c'.revision && c.lease.epoch <= c'.lease.epoch
    && c.submissions <= c'.submissions && c.acks <= c'.acks
  }

  lemma {:induction false} StepGrows(run: seq<Children>, j: nat, ns: string)
    requires ChildRun(run) && j < |run| - 1 && ns in run[j]
    ensures ns in run[j + 1] && Grew(run[j][ns], run[j + 1][ns])
  {
    assert ChildStep(run, j);
    RunIsRun(run, j);
    if run[j + 1] != run[j] && !CreatesFresh(run[j], run[j + 1]) {
      var i: nat, changed, next, event :| i <= j && CommitsFrom(run, i, j, changed, next, event);
      CommitGrows(run[j], changed, run[i][changed].revision, next, event);
    }
  }

  lemma {:induction false} CommitGrows(children: Children, ns: string, expected: int, next: ChildSnapshot, event: ChildEvent)
    requires Swapped(children, ns, expected, next, event).Ok? && AllFiled(children)
    ensures Filed(children, Swapped(children, ns, expected, next, event)) == children[ns := Swapped(children, ns, expected, next, event).value]
    ensures Grew(children[ns], Swapped(children, ns, expected, next, event).value)
  {
    CommittedIs(children[ns], expected, next, event);
  }

  /** Nothing that a journal ever recorded is lost or changed, and its lease never goes back. */
  lemma {:induction false} JournalsOnlyGrow(run: seq<Children>, i: nat, j: nat, ns: string)
    requires ChildRun(run) && i <= j < |run| && ns in run[i]
    ensures ns in run[j] && Grew(run[i][ns], run[j][ns])
    decreases j
  {
    if i < j {
      JournalsOnlyGrow(run, i, j - 1, ns);
      StepGrows(run, j - 1, ns);
    }
  }

  /** Over a whole run a lease epoch of a child admits at most one submission. */
  lemma {:induction false} OneSubmissionPerEpoch(run: seq<Children>, i: nat, j: nat, ns: string, s: Submission, s': Submission)
    requires ChildRun(run) && i <= j < |run| && ns in run[i] && ns in run[j]
    requires s in run[i][ns].submissions && s' in run[j][ns].submissions
    ensures s.leaseEpoch == s'.leaseEpoch <==> s == s'
  {
    JournalsOnlyGrow(run, i, j, ns);
    JournalsOverRuns(run, j, ns);
    var c := run[j][ns];
    var x :| 0 <= x < |run[i][ns].submissions| && run[i][ns].submissions[x] == s;
    var y :| 0 <= y < |c.submissions| && c.submissions[y] == s';
    assert c.submissions[x] == s;
    assert c.submissions[x].leaseEpoch == c.binding.leaseEpoch + x && c.submissions[y].leaseEpoch == c.binding.leaseEpoch + y;
  }

  // ---------------------------------------------------------------- exactly what the stores accept

  /** A child is created or found exactly when the snapshot is an initial one, its namespace is free or has the same
      binding and manifest, and no other child has its run id; what is found is returned as it is. */
  lemma {:induction false} CreateOrLoadIff(children: Children, s: ChildSnapshot)
    requires Coherent(children)
    ensures var ns := s.binding.checkpointNs;
      CreatedOrLoaded(children, s).Ok? <==>
      && s.revision == 0 && s.status == ChildCreated
      && if ns in children then children[ns].binding == s.binding && children[ns].manifest == s.manifest
         else forall other :: other in children ==> children[other].binding.childRunId != s.binding.childRunId
    ensures CreatedOrLoaded(children, s).Ok? ==>
      CreatedOrLoaded(children, s).value == if s.binding.checkpointNs in children then children[s.binding.checkpointNs] else s
  {
  }

  /** What a commit may be: the next revision, with the same binding and manifest, journals that only grow, and a
      lease that stays or moves to the next epoch. */
  ghost predicate Follows(c: ChildSnapshot, next: ChildSnapshot, event: ChildEvent) {
    && Grew(c, next) && next.revision == c.revision + 1 && event.revision == c.revision + 1 && Sane(next)
    && (next.lease == c.lease || next.lease.epoch == c.lease.epoch + 1)
  }

  lemma {:induction false} CommitIff(c: ChildSnapshot, expected: int, next: ChildSnapshot, event: ChildEvent)
    ensures ValidateCommit(c, expected, next, event).Ok? <==> c.revision == expected && Follows(c, next, event)
    ensures ValidateCommit(c, expected, next, event).Ok? ==> ValidateCommit(c, expected, next, event).value == next.(lastEvent := Some(event))
  {
  }

  /** Over any run, a client's commit of something that follows what it loaded succeeds exactly when nobody else
      committed to that child in between. */
  lemma {:induction false} CommitSucceedsIff(run: seq<Children>, i: nat, j: nat, ns: string, next: ChildSnapshot, event: ChildEvent)
    requires ChildRun(run) && i <= j < |run| && ns in run[i] && Follows(run[i][ns], next, event)
    ensures ns in run[j]
    ensures Swapped(run[j], ns, run[i][ns].revision, next, event).Ok? <==> run[j][ns] == run[i][ns]
    ensures run[j][ns] != run[i][ns] ==> Swapped(run[j], ns, run[i][ns].revision, next, event) == Err(StaleRevision)
  {
    RunIsRun(run, j);
    History.RevisionDetermines(Revision, run[..j + 1], ns, i, j);
    CommitIff(run[j][ns], run[i][ns].revision, next, event);
  }
}
