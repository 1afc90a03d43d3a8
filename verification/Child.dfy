/** Child checkpoints: what a commit must preserve, and the submission journal with its acknowledgements. */
module Child {
  import opened Core
  import opened Order

  /** The fields of the source's binding that the modelled operations compare; `rest` stands for the others.
      Equal fingerprints mean equal bindings. */
  datatype Binding = Binding(
    rootRunId: string, childRunId: string, parentAttemptId: string, dispatchKey: string, checkpointNs: string,
    manifestFingerprint: string, parentContractFingerprint: string, leaseEpoch: int, leaseToken: string, rest: string)

  datatype ChildStatus =
    ChildCreated | ChildRunning | ChildWaiting | ChildCompleted | ChildFailed | ChildCancelled | ChildOrphaned | ReconciliationRequired

  datatype ActiveLease = ActiveLease(epoch: int, token: string)

  /** `content` stands for what the payload hash covers beyond the fields listed. */
  datatype Submission = Submission(
    id: string, sequence: int, taskId: string, attemptId: string, childRunId: string, leaseEpoch: int, leaseToken: string,
    manifestFingerprint: string, parentContractFingerprint: string, payloadHash: string)

  datatype Delivery = DeliveryPending | Received | DeliveryAccepted | Repairable | Rejected | DeliveryStale

  datatype Ack = Ack(submissionId: string, payloadHash: string, decision: Delivery, receiptStatus: string,
                     leaseEpoch: Option<int>, leaseToken: Option<string>, reason: Option<string>)

  datatype ChildEvent = ChildEvent(id: string, kind: string, revision: int)

  datatype Manifest = Manifest(taskId: string, content: string)

  datatype ChildSnapshot = ChildSnapshot(
    binding: Binding, revision: int, status: ChildStatus, manifest: Manifest, workflow: string, handle: Option<string>,
    lease: ActiveLease, submissions: seq<Submission>, acks: seq<Ack>, lastEvent: Option<ChildEvent>)

  datatype ChildError =
    | NotInitial | MissingChild | BindingMismatch | ManifestMismatch | NamespaceTaken
    | StaleRevision | BindingChanged | ManifestChanged | EpochJump | TokenChanged | SubmissionsRewritten | AcksRewritten
    | WrongRevision | WrongEventRevision | BadJournal | EpochBeforeBinding
    | ForeignSubmission | StaleLease | IdReused | SequenceTaken | SequenceGap | NeedsRepairableAck
    | UnknownSubmission | AckChanged | RepairNeedsLease | RepairSkipsEpoch | OnlyRepairReplacesLease

  // ---------------------------------------------------------------- what every snapshot satisfies

  predicate SubmissionsOk(subs: seq<Submission>) {
    && (forall i :: 0 <= i < |subs| ==> subs[i].sequence == i + 1)
    && forall i, j :: 0 <= i < j < |subs| ==> subs[i].id != subs[j].id
  }

  predicate KnownSubmission(subs: seq<Submission>, id: string) {
    exists i :: 0 <= i < |subs| && subs[i].id == id
  }

  predicate AcksOk(subs: seq<Submission>, acks: seq<Ack>) {
    && (forall i :: 0 <= i < |acks| ==> KnownSubmission(subs, acks[i].submissionId))
    && forall i, j :: 0 <= i < j < |acks| ==> acks[i].submissionId != acks[j].submissionId
  }

  predicate JournalOk(s: ChildSnapshot) {
    SubmissionsOk(s.submissions) && AcksOk(s.submissions, s.acks)
  }

  /** The source's loops over the submissions and the acknowledgements, with their sets of seen ids. */
  method ValidateSubmissionJournal(s: ChildSnapshot) returns (ok: bool)
    ensures ok <==> JournalOk(s)
  {
    var subs, acks := s.submissions, s.acks;
    var ids: set<string> := {};
    for i := 0 to |subs|
      invariant SubmissionsOk(subs[..i]) && forall id :: id in ids <==> KnownSubmission(subs[..i], id)
    {
      assert subs[..i + 1] == subs[..i] + [subs[i]];
      if subs[i].id in ids {
        var k :| 0 <= k < i && subs[..i][k].id == subs[i].id;
        assert subs[k].id == subs[i].id;
        return false;
      }
      if subs[i].sequence != i + 1 { return false; }
      KnownSnoc(subs, i);
      assert forall k :: 0 <= k < i ==> KnownSubmission(subs[..i], subs[..i][k].id);
      ids := ids + {subs[i].id};
    }
    assert subs[..|subs|] == subs;
    var acked: set<string> := {};
    for i := 0 to |acks|
      invariant AcksOk(subs, acks[..i]) && forall id :: id in acked <==> exists k :: 0 <= k < i && acks[k].submissionId == id
    {
      assert acks[..i + 1] == acks[..i] + [acks[i]];
      if acks[i].submissionId !in ids { return false; }
      if acks[i].submissionId in acked { return false; }
      acked := acked + {acks[i].submissionId};
    }
    assert acks[..|acks|] == acks;
    return true;
  }

  lemma {:induction false} KnownSnoc(subs: seq<Submission>, i: nat)
    requires i < |subs|
    ensures forall id :: KnownSubmission(subs[..i + 1], id) <==> KnownSubmission(subs[..i], id) || subs[i].id == id
  {
  }

  // ---------------------------------------------------------------- commits

  /** The checks of `_validate_commit`, then those of the snapshot it builds. */
  function ValidateCommit(current: ChildSnapshot, expected: int, next: ChildSnapshot, event: ChildEvent): Result<ChildSnapshot, ChildError> {
    if current.revision != expected then Err(StaleRevision)
    else if next.binding != current.binding then Err(BindingChanged)
    else if next.manifest != current.manifest then Err(ManifestChanged)
    else if next.lease.epoch != current.lease.epoch && next.lease.epoch != current.lease.epoch + 1 then Err(EpochJump)
    else if next.lease.epoch == current.lease.epoch && next.lease.token != current.lease.token then Err(TokenChanged)
    else if !(current.submissions <= next.submissions) then Err(SubmissionsRewritten)
    else if !(current.acks <= next.acks) then Err(AcksRewritten)
    else if next.revision != expected + 1 then Err(WrongRevision)
    else if event.revision != next.revision then Err(WrongEventRevision)
    else if next.lease.epoch < next.binding.leaseEpoch then Err(EpochBeforeBinding)
    else if !JournalOk(next) then Err(BadJournal)
    else Ok(next.(lastEvent := Some(event)))
  }

  /** What a persist or an acknowledgement asks the store for, when it does not return what is there. */
  datatype Request = Nothing | Commit(next: ChildSnapshot, event: ChildEvent)

  function FindSubmission(subs: seq<Submission>, id: string): (o: Option<Submission>)
    ensures o.Some? <==> KnownSubmission(subs, id)
    ensures o.Some? ==> o.value in subs && o.value.id == id
  {
    if subs == [] then None
    else
      var last := subs[|subs| - 1];
      var before := FindSubmission(subs[..|subs| - 1], id);
      assert subs == subs[..|subs| - 1] + [last];
      assert forall i :: 0 <= i < |subs| - 1 ==> subs[..|subs| - 1][i] == subs[i];
      if before.Some? then before else if last.id == id then Some(last) else None
  }

  predicate HasSequence(subs: seq<Submission>, sequence: int) {
    exists i :: 0 <= i < |subs| && subs[i].sequence == sequence
  }

  function FindAck(acks: seq<Ack>, id: string): (o: Option<Ack>)
    ensures o.Some? ==> o.value in acks && o.value.submissionId == id
    ensures o.None? ==> forall i :: 0 <= i < |acks| ==> acks[i].submissionId != id
  {
    if acks == [] then None
    else
      var before := FindAck(acks[..|acks| - 1], id);
      assert forall i :: 0 <= i < |acks| - 1 ==> acks[..|acks| - 1][i] == acks[i];
      if before.Some? then before else if acks[|acks| - 1].submissionId == id then Some(acks[|acks| - 1]) else None
  }

  /** `persist_child_submission` on a loaded checkpoint. The lease is checked before the replay. */
  function Persist(c: ChildSnapshot, s: Submission, eventId: string): Result<Request, ChildError> {
    if s.attemptId != c.binding.parentAttemptId || s.taskId != c.manifest.taskId || s.childRunId != c.binding.childRunId
       || s.manifestFingerprint != c.binding.manifestFingerprint || s.parentContractFingerprint != c.binding.parentContractFingerprint
    then Err(ForeignSubmission)
    else if s.leaseEpoch != c.lease.epoch || s.leaseToken != c.lease.token then Err(StaleLease)
    else
      var existing := FindSubmission(c.submissions, s.id);
      if existing.Some? then (if existing.value.payloadHash != s.payloadHash then Err(IdReused) else Ok(Nothing))
      else if HasSequence(c.submissions, s.sequence) then Err(SequenceTaken)
      else if s.sequence != |c.submissions| + 1 then Err(SequenceGap)
      else if |c.submissions| > 0 && !Repaired(c, c.submissions[|c.submissions| - 1].id) then Err(NeedsRepairableAck)
      else
        Ok(Commit(c.(revision := c.revision + 1, submissions := c.submissions + [s]),
                  ChildEvent(eventId, "candidate_submission_persisted", c.revision + 1)))
  }

  predicate Repaired(c: ChildSnapshot, id: string) {
    FindAck(c.acks, id).Some? && FindAck(c.acks, id).value.decision == Repairable
  }

  /** `acknowledge_child_submission` on a loaded checkpoint. */
  function Acknowledge(c: ChildSnapshot, a: Ack, eventId: string): Result<Request, ChildError> {
    var s := FindSubmission(c.submissions, a.submissionId);
    if s.None? || s.value.payloadHash != a.payloadHash then Err(UnknownSubmission)
    else
      var existing := FindAck(c.acks, a.submissionId);
      if existing.Some? then (if existing.value != a then Err(AckChanged) else Ok(Nothing))
      else if a.decision == Repairable && (a.leaseEpoch.None? || a.leaseToken.None?) then Err(RepairNeedsLease)
      else if a.decision == Repairable && a.leaseEpoch.value != c.lease.epoch + 1 then Err(RepairSkipsEpoch)
      else if a.decision != Repairable && (a.leaseEpoch.Some? || a.leaseToken.Some?) then Err(OnlyRepairReplacesLease)
      else
        var lease := if a.decision == Repairable then ActiveLease(a.leaseEpoch.value, a.leaseToken.value) else c.lease;
        Ok(Commit(c.(revision := c.revision + 1, lease := lease, acks := c.acks + [a]),
                  ChildEvent(eventId, "submission_delivery_acknowledged", c.revision + 1)))
  }

  // ---------------------------------------------------------------- exactly what is accepted

  /** Some acknowledgement of the submission asks for its repair. */
  ghost predicate RepairAsked(c: ChildSnapshot, id: string) {
    exists a :: a in c.acks && a.submissionId == id && a.decision == Repairable
  }

  lemma {:induction false} RepairedIff(c: ChildSnapshot, id: string)
    requires JournalOk(c)
    ensures Repaired(c, id) <==> RepairAsked(c, id)
  {
    if a :| a in c.acks && a.submissionId == id && a.decision == Repairable {
      var i :| 0 <= i < |c.acks| && c.acks[i] == a;
      var found := FindAck(c.acks, id);
      var j :| 0 <= j < |c.acks| && c.acks[j] == found.value;
    }
  }

  /** The submission was made for this child under its active lease. */
  ghost predicate Fenced(c: ChildSnapshot, s: Submission) {
    IsFor(c, s) && s.leaseEpoch == c.lease.epoch && s.leaseToken == c.lease.token
  }

  /** It is the next one: its id is new, its sequence continues, and the one before it is to be repaired. */
  ghost predicate IsNext(c: ChildSnapshot, s: Submission) {
    var n := |c.submissions|;
    && IsNewId(c, s.id) && s.sequence == n + 1
    && (n > 0 ==> RepairAsked(c, c.submissions[n - 1].id))
  }

  /** Persisting appends a submission exactly when it was made for this child under its active lease and is the next
      one; it changes nothing exactly when that submission is there already with the same content; otherwise it
      is an error. */
  lemma {:induction false} PersistIff(c: ChildSnapshot, s: Submission, eventId: string)
    requires JournalOk(c)
    ensures Persist(c, s, eventId) == Ok(Commit(c.(revision := c.revision + 1, submissions := c.submissions + [s]),
                                                ChildEvent(eventId, "candidate_submission_persisted", c.revision + 1)))
       <==> Fenced(c, s) && IsNext(c, s)
    ensures Persist(c, s, eventId) == Ok(Nothing) <==>
      Fenced(c, s) && exists k :: 0 <= k < |c.submissions| && c.submissions[k].id == s.id && c.submissions[k].payloadHash == s.payloadHash
    ensures Persist(c, s, eventId).Ok? ==> Persist(c, s, eventId).value == Nothing || (Fenced(c, s) && IsNext(c, s))
  {
    var subs := c.submissions;
    if subs != [] { RepairedIff(c, subs[|subs| - 1].id); }
    if KnownSubmission(subs, s.id) {
      var found := FindSubmission(subs, s.id).value;
      var i :| 0 <= i < |subs| && subs[i] == found;
    }
  }

  /** Which error a submission is refused with: the first of what is wrong with it. */
  lemma {:induction false} PersistErrors(c: ChildSnapshot, s: Submission, eventId: string)
    requires JournalOk(c)
    ensures var p, n := Persist(c, s, eventId), |c.submissions|;
      && (p == Err(ForeignSubmission) <==> !IsFor(c, s))
      && (p == Err(StaleLease) <==> IsFor(c, s) && !Fenced(c, s))
      && (p == Err(IdReused) <==> Fenced(c, s) && exists k :: 0 <= k < n && c.submissions[k].id == s.id && c.submissions[k].payloadHash != s.payloadHash)
      && (p == Err(SequenceTaken) <==> Fenced(c, s) && IsNewId(c, s.id) && 1 <= s.sequence <= n)
      && (p == Err(SequenceGap) <==> Fenced(c, s) && IsNewId(c, s.id) && (s.sequence < 1 || s.sequence > n + 1))
      && (p == Err(NeedsRepairableAck) <==>
            Fenced(c, s) && IsNewId(c, s.id) && s.sequence == n + 1 && n > 0 && !RepairAsked(c, c.submissions[n - 1].id))
  {
    var subs := c.submissions;
    if subs != [] { RepairedIff(c, subs[|subs| - 1].id); }
    TakenIff(c, s.sequence);
    if KnownSubmission(subs, s.id) {
      var found := FindSubmission(subs, s.id).value;
      var i :| 0 <= i < |subs| && subs[i] == found;
    }
  }

  ghost predicate IsFor(c: ChildSnapshot, s: Submission) {
    && s.attemptId == c.binding.parentAttemptId && s.taskId == c.manifest.taskId && s.childRunId == c.binding.childRunId
    && s.manifestFingerprint == c.binding.manifestFingerprint && s.parentContractFingerprint == c.binding.parentContractFingerprint
  }

  ghost predicate IsNewId(c: ChildSnapshot, id: string) {
    forall k :: 0 <= k < |c.submissions| ==> c.submissions[k].id != id
  }

  lemma {:induction false} TakenIff(c: ChildSnapshot, sequence: int)
    requires JournalOk(c)
    ensures HasSequence(c.submissions, sequence) <==> 1 <= sequence <= |c.submissions|
  {
    if 1 <= sequence <= |c.submissions| { assert c.submissions[sequence - 1].sequence == sequence; }
  }

  ghost predicate Delivered(c: ChildSnapshot, a: Ack) {
    exists k :: 0 <= k < |c.submissions| && c.submissions[k].id == a.submissionId && c.submissions[k].payloadHash == a.payloadHash
  }

  /** A lease comes with a request for repair, and only with one; it is the next epoch. */
  ghost predicate LeaseFits(c: ChildSnapshot, a: Ack) {
    if a.decision == Repairable then a.leaseEpoch == Some(c.lease.epoch + 1) && a.leaseToken.Some?
    else a.leaseEpoch.None? && a.leaseToken.None?
  }

  ghost predicate FirstAck(c: ChildSnapshot, a: Ack) {
    forall k :: 0 <= k < |c.acks| ==> c.acks[k].submissionId != a.submissionId
  }

  /** The acknowledged checkpoint: a request for repair makes the lease that it carries the active one. */
  ghost function WithAck(c: ChildSnapshot, a: Ack): ChildSnapshot
    requires LeaseFits(c, a)
  {
    c.(revision := c.revision + 1, acks := c.acks + [a],
       lease := if a.decision == Repairable then ActiveLease(a.leaseEpoch.value, a.leaseToken.value) else c.lease)
  }

  /** An acknowledgement is recorded exactly when it is the first one of a submission that is there, and its lease fits;
      it changes nothing exactly when it is recorded already; otherwise it is an error. */
  lemma {:induction false} AcknowledgeIff(c: ChildSnapshot, a: Ack, eventId: string)
    requires JournalOk(c)
    ensures Delivered(c, a) && FirstAck(c, a) && LeaseFits(c, a) ==>
      Acknowledge(c, a, eventId) == Ok(Commit(WithAck(c, a), ChildEvent(eventId, "submission_delivery_acknowledged", c.revision + 1)))
    ensures Acknowledge(c, a, eventId) == Ok(Nothing) <==> Delivered(c, a) && a in c.acks
    ensures Acknowledge(c, a, eventId).Ok? ==>
      Acknowledge(c, a, eventId).value == Nothing || (Delivered(c, a) && FirstAck(c, a) && LeaseFits(c, a))
  {
    AckPlace(c, a);
    if KnownSubmission(c.submissions, a.submissionId) {
      var found := FindSubmission(c.submissions, a.submissionId).value;
      var i :| 0 <= i < |c.submissions| && c.submissions[i] == found;
    }
  }

  lemma {:induction false} AckPlace(c: ChildSnapshot, a: Ack)
    requires JournalOk(c)
    ensures FindAck(c.acks, a.submissionId).None? <==> FirstAck(c, a)
    ensures FindAck(c.acks, a.submissionId) == Some(a) <==> a in c.acks
  {
    if a in c.acks {
      var i :| 0 <= i < |c.acks| && c.acks[i] == a;
      var j :| 0 <= j < |c.acks| && c.acks[j] == FindAck(c.acks, a.submissionId).value;
    }
  }

  // ---------------------------------------------------------------- the journal discipline

  predicate IsRepair(a: Ack) { a.decision == Repairable }

  function Repairs(acks: seq<Ack>): nat {
    Count(acks, IsRepair)
  }

  /** Submissions and acknowledgements alternate: submission `k` carries the epoch it was fenced by, every
      submission but the last has exactly one acknowledgement, in order, and that one asks for repair. */
  ghost predicate Disciplined(s: ChildSnapshot) {
    var n, m := |s.submissions|, |s.acks|;
    && JournalOk(s)
    && m <= n <= m + 1
    && (forall i :: 0 <= i < m ==> s.acks[i].submissionId == s.submissions[i].id)
    && (forall i :: 0 <= i < m && i < n - 1 ==> s.acks[i].decision == Repairable)
    && (forall i :: 0 <= i < n ==> s.submissions[i].leaseEpoch == s.binding.leaseEpoch + i)
    && s.lease.epoch == s.binding.leaseEpoch + Repairs(s.acks)
  }

  lemma {:induction false} RepairsSnoc(acks: seq<Ack>, a: Ack)
    ensures Repairs(acks + [a]) == Repairs(acks) + if a.decision == Repairable then 1 else 0
  {
    CountConcat(acks, [a], IsRepair);
    assert [a][1..] == [];
  }

  lemma {:induction false} AllRepairs(acks: seq<Ack>)
    requires forall i :: 0 <= i < |acks| ==> acks[i].decision == Repairable
    ensures Repairs(acks) == |acks|
    decreases |acks|
  {
    if acks != [] {
      forall i | 0 <= i < |acks[1..]| ensures acks[1..][i].decision == Repairable { assert acks[1..][i] == acks[i + 1]; }
      AllRepairs(acks[1..]);
    }
  }

  /** In a disciplined journal the acknowledgement of a known submission is where the submission is. */
  lemma {:induction false} AckOfSubmission(s: ChildSnapshot, i: nat)
    requires Disciplined(s) && i < |s.submissions|
    ensures FindAck(s.acks, s.submissions[i].id) == if i < |s.acks| then Some(s.acks[i]) else None
  {
  }

  lemma {:induction false} PersistKeepsDiscipline(c: ChildSnapshot, s: Submission, eventId: string)
    requires Disciplined(c) && Persist(c, s, eventId).Ok? && Persist(c, s, eventId).value.Commit?
    ensures var next := Persist(c, s, eventId).value.next;
      Disciplined(next) && next.submissions == c.submissions + [s] && next.acks == c.acks && next.lease == c.lease
  {
    var n := |c.submissions|;
    if n > 0 { AckOfSubmission(c, n - 1); }
    AppendKeepsDiscipline(c, s, c.revision + 1);
  }

  lemma {:induction false} AppendKeepsDiscipline(c: ChildSnapshot, s: Submission, revision: int)
    requires Disciplined(c) && !KnownSubmission(c.submissions, s.id) && s.sequence == |c.submissions| + 1 && s.leaseEpoch == c.lease.epoch
    requires |c.acks| == |c.submissions| && forall i :: 0 <= i < |c.acks| ==> c.acks[i].decision == Repairable
    ensures Disciplined(c.(revision := revision, submissions := c.submissions + [s]))
  {
    AppendSubmission(c, s);
    AllRepairs(c.acks);
  }

  lemma {:induction false} AppendSubmission(c: ChildSnapshot, s: Submission)
    requires JournalOk(c) && !KnownSubmission(c.submissions, s.id) && s.sequence == |c.submissions| + 1
    ensures JournalOk(c.(submissions := c.submissions + [s]))
  {
    var more, n := c.submissions + [s], |c.submissions|;
    forall i, j | 0 <= i < j < n + 1 ensures more[i].id != more[j].id {
      if j == n { assert c.submissions[i].id != s.id; }
    }
    forall i | 0 <= i < |c.acks| ensures KnownSubmission(more, c.acks[i].submissionId) {
      var k :| 0 <= k < n && c.submissions[k].id == c.acks[i].submissionId;
      assert more[k].id == c.acks[i].submissionId;
    }
  }

  lemma {:induction false} AcknowledgeKeepsDiscipline(c: ChildSnapshot, a: Ack, eventId: string)
    requires Disciplined(c) && Acknowledge(c, a, eventId).Ok? && Acknowledge(c, a, eventId).value.Commit?
    ensures var next := Acknowledge(c, a, eventId).value.next;
      Disciplined(next) && next.submissions == c.submissions && next.acks == c.acks + [a]
      && (a.decision != Repairable ==> next.lease == c.lease)
  {
    var k :| 0 <= k < |c.submissions| && c.submissions[k].id == a.submissionId;
    AckOfSubmission(c, k);
    var next := Acknowledge(c, a, eventId).value.next;
    AckKeepsDiscipline(c, a, k, next.revision, next.lease);
  }

  lemma {:induction false} AckKeepsDiscipline(c: ChildSnapshot, a: Ack, k: nat, revision: int, lease: ActiveLease)
    requires Disciplined(c) && k == |c.acks| == |c.submissions| - 1 && c.submissions[k].id == a.submissionId && FindAck(c.acks, a.submissionId).None?
    requires lease.epoch == c.lease.epoch + if a.decision == Repairable then 1 else 0
    ensures Disciplined(c.(revision := revision, lease := lease, acks := c.acks + [a]))
  {
    AppendAck(c, a);
    RepairsSnoc(c.acks, a);
  }

  lemma {:induction false} AppendAck(c: ChildSnapshot, a: Ack)
    requires JournalOk(c) && KnownSubmission(c.submissions, a.submissionId) && FindAck(c.acks, a.submissionId).None?
    ensures JournalOk(c.(acks := c.acks + [a]))
  {
  }

  /** Committing changes only the event. */
  lemma {:induction false} CommittedIs(current: ChildSnapshot, expected: int, next: ChildSnapshot, event: ChildEvent)
    requires ValidateCommit(current, expected, next, event).Ok?
    ensures var c := ValidateCommit(current, expected, next, event).value; c == next.(lastEvent := Some(event)) && c.revision == current.revision + 1
    ensures Disciplined(next) ==> Disciplined(ValidateCommit(current, expected, next, event).value)
  {
  }

  /** A commit that leaves the journal and the lease alone keeps the discipline. */
  lemma {:induction false} OtherCommitsKeepDiscipline(current: ChildSnapshot, next: ChildSnapshot)
    requires Disciplined(current) && next.binding == current.binding && next.lease == current.lease
    requires next.submissions == current.submissions && next.acks == current.acks
    ensures Disciplined(next)
  {
  }

  ghost predicate AckedOnce(s: ChildSnapshot, id: string) {
    Count(s.acks, (a: Ack) => a.submissionId == id) == 1
  }

  /** What the discipline says of each submission: its place, its fence, and the repair that let the next one
      in. */
  lemma {:induction false} JournalShape(s: ChildSnapshot, i: nat)
    requires Disciplined(s) && i < |s.submissions|
    ensures s.submissions[i].sequence == i + 1 && s.submissions[i].leaseEpoch == s.binding.leaseEpoch + i
    ensures i < |s.submissions| - 1 ==> AckedOnce(s, s.submissions[i].id) && Repaired(s, s.submissions[i].id)
  {
    if i < |s.submissions| - 1 {
      AckOfSubmission(s, i);
      forall k | 0 <= k < |s.acks| ensures s.acks[k].submissionId == s.submissions[i].id <==> k == i {
        assert s.acks[k].submissionId == s.submissions[k].id;
      }
      CountOneIff(s.acks, (a: Ack) => a.submissionId == s.submissions[i].id);
      assert OnlyAt(s.acks, (a: Ack) => a.submissionId == s.submissions[i].id, i);
    }
  }

  /** The active epoch is that of the last submission, or the next one once its repair is acknowledged. */
  lemma {:induction false} ActiveEpoch(s: ChildSnapshot)
    requires Disciplined(s)
    ensures s.submissions == [] ==> s.lease.epoch == s.binding.leaseEpoch
    ensures s.submissions != [] ==>
      s.lease.epoch == s.submissions[|s.submissions| - 1].leaseEpoch + if Repaired(s, s.submissions[|s.submissions| - 1].id) then 1 else 0
  {
    var n, m := |s.submissions|, |s.acks|;
    if n > 0 {
      AckOfSubmission(s, n - 1);
      AllRepairs(s.acks[..n - 1]);
      if m == n {
        assert s.acks == s.acks[..n - 1] + [s.acks[n - 1]];
        RepairsSnoc(s.acks[..n - 1], s.acks[n - 1]);
      } else {
        assert s.acks == s.acks[..n - 1];
      }
    }
  }

  // ---------------------------------------------------------------- replays

  /** Delivering a persisted submission again changes nothing exactly as long as the lease has not moved on;
      after that it is refused. */
  lemma {:induction false} PersistReplayed(c: ChildSnapshot, s: Submission, eventId: string, later: ChildSnapshot)
    requires Persist(c, s, eventId).Ok? && Persist(c, s, eventId).value.Commit?
    requires later.binding == c.binding && later.manifest == c.manifest && JournalOk(later) && c.submissions + [s] <= later.submissions
    ensures Persist(later, s, eventId) == if later.lease == c.lease then Ok(Nothing) else Err(StaleLease)
  {
    assert later.submissions[|c.submissions|] == s;
    var found := FindSubmission(later.submissions, s.id);
    var k :| 0 <= k < |later.submissions| && later.submissions[k] == found.value;
    assert k == |c.submissions|;
  }

  /** Delivering an acknowledgement again changes nothing, whatever happened to the lease. */
  lemma {:induction false} AcknowledgeReplayed(c: ChildSnapshot, a: Ack, eventId: string, later: ChildSnapshot)
    requires Acknowledge(c, a, eventId).Ok? && JournalOk(later) && c.submissions <= later.submissions && a in later.acks
    ensures Acknowledge(later, a, eventId) == Ok(Nothing)
  {
  }
}
