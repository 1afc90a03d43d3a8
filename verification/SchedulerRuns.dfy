/** Mutual exclusion and bounded capacity over whole runs: launching from batches, finishing, retiring,
    releasing and renewing in any order. */
module SchedulerRuns {
  import opened Core
  import opened Order
  import opened Attempts
  import opened Paths
  import opened Resources
  import opened Leases
  import opened Scheduler
  import opened SchedulerTheorems
  import opened Batches

  /** The legal Attempt transitions (`_ATTEMPT_TRANSITIONS`). */
  predicate CanMove(from: AttemptStatus, to: AttemptStatus) {
    match from
    case Created => to in {Leased, AttemptCancelled}
    case Leased => to in {AttemptRunning, AttemptCancelled, AttemptFailed}
    case AttemptRunning => to in {AttemptWaiting, Submitted, AttemptFailed, AttemptCancelled}
    case AttemptWaiting => to in {AttemptRunning, AttemptFailed, AttemptCancelled}
    case Submitted => to in {AttemptRunning, AttemptWaiting, AttemptCompleted, AttemptFailed, AttemptCancelled}
    case _ => false
  }

  /** The transitions by where they lead: every Attempt in flight can be cancelled, and once leased can fail; it
      completes only after its submission, submits only while running, and never returns to an end or to its start. */
  lemma {:induction false} MovesByTarget(from: AttemptStatus, to: AttemptStatus)
    ensures CanMove(from, to) <==>
      && InFlight(from)
      && match to
         case Created => false
         case Leased => from == Created
         case AttemptRunning => from != Created && from != AttemptRunning
         case AttemptWaiting => from == AttemptRunning || from == Submitted
         case Submitted => from == AttemptRunning
         case AttemptCompleted => from == Submitted
         case AttemptFailed => from != Created
         case AttemptCancelled => true
  {
  }

  /** The Attempt stays the same unit of work: its identity, binding and paths are fixed at launch. */
  predicate SameUnit(a: Attempt, a': Attempt) {
    a'.id == a.id && a'.task == a.task && a'.binding == a.binding && a'.dispatchKey == a.dispatchKey && a'.lease.resourceKeys == a.lease.resourceKeys
  }

  /** A legal transition. It leaves the lease retiring only where a submission is received or the Attempt is
      cancelled; repairing may advance the lease epoch. */
  predicate Moves(a: Attempt, a': Attempt) {
    SameUnit(a, a') && CanMove(a.status, a'.status) && (a'.lease.retiring ==> a'.status in {Submitted, AttemptCancelled})
  }

  /** The executor of a retiring Attempt acknowledged its cancellation. */
  predicate Acknowledged(a: Attempt, a': Attempt) {
    a.lease.retiring && a' == a.(lease := a.lease.(retiring := false))
  }

  /** Reconciliation decided on a release, which happens only if the executor is definitely absent. */
  ghost predicate Released(a: Attempt, a': Attempt) {
    (exists seen, now :: Reconcile(a, seen, now) in {ReplaceAndRelease, ReleaseRetiring}) && SameUnit(a, a') && !Holds(a')
  }

  /** The executor is definitely absent, its lease is suspect, and the hold ends. */
  ghost predicate FoundAbsent(a: Attempt, a': Attempt) {
    SameUnit(a, a') && Holds(a) && !Holds(a') && exists now :: Reconcile(a, DefinitelyAbsent, now) != NotRequired && Assess(a, now).state == Suspect
  }

  /** What may happen to one Attempt in one step. */
  ghost predicate Evolves(a: Attempt, a': Attempt) {
    || a' == a
    || Moves(a, a')
    || Acknowledged(a, a')
    || Released(a, a')
    || (exists now, ttl, proof :: Renew(a, now, ttl, proof) == Ok(a'))
  }

  lemma {:induction false} NobodyRegainsHold(a: Attempt, a': Attempt)
    requires Evolves(a, a')
    ensures SameUnit(a, a') && (Holds(a') ==> Holds(a))
  {
  }

  /** A new Attempt for a selected Task. */
  predicate Launched(a: Attempt, t: Task, keys: seq<string>) {
    a.task == t.AsRef() && a.status == Created && a.binding == t.policy.preferred && a.lease.resourceKeys == keys && !a.lease.retiring
  }

  /** The limits that stay the same for the whole run: those of the policy, and the graph's limit on concurrency. */
  datatype RunLimits = RunLimits(policy: Policy, graphLimit: int)

  /** The scheduler derives a batch from any graph, the Attempts so far and any requests, and any number of the
      selected Tasks are launched, in order, each claiming the canonical paths that it asked for. */
  ghost predicate Launches(l: RunLimits, before: seq<Attempt>, after: seq<Attempt>) {
    exists g: Graph, resources, batch: Batch :: LaunchesBatch(l, before, after, g, resources, batch)
  }

  ghost predicate LaunchesBatch(l: RunLimits, before: seq<Attempt>, after: seq<Attempt>, g: Graph, resources: map<Ref, seq<string>>, batch: Batch) {
    && g.limits.maxConcurrency == l.graphLimit && Schedule(g, before, l.policy, resources) == Ok(batch)
    && before <= after && |after| - |before| <= |batch.selected|
    && forall i :: 0 <= i < |after| - |before| ==> LaunchedFor(after[|before| + i], batch.selected[i], resources)
  }

  ghost predicate LaunchedFor(a: Attempt, t: Task, resources: map<Ref, seq<string>>) {
    exists keys :: CanonicalPaths(Wants(resources, t)) == Ok(keys) && Launched(a, t, keys)
  }

  /** The same in terms of the pass that made the batch. */
  ghost predicate LaunchesFrom(l: RunLimits, before: seq<Attempt>, after: seq<Attempt>, c: Context, ready: seq<Task>, so: Chosen) {
    && c.attempts == before && c.limit <= l.policy.maxConcurrency && c.limit <= l.graphLimit && c.perTemplate == l.policy.perTemplate
    && ScheduleFrom(c, ready, Chosen([], [], [])) == Ok(so) && |so.claimed| == |so.selected|
    && before <= after && |after| - |before| <= |so.selected|
    && forall i :: 0 <= i < |after| - |before| ==> LaunchedAt(before, after, so, i)
  }

  lemma {:induction false} BatchFromPass(l: RunLimits, before: seq<Attempt>, after: seq<Attempt>, g: Graph, resources: map<Ref, seq<string>>, batch: Batch)
    returns (c: Context, ready: seq<Task>, so: Chosen)
    requires LaunchesBatch(l, before, after, g, resources, batch)
    ensures LaunchesFrom(l, before, after, c, ready, so)
  {
    c := Context(before, GlobalLimitOf(g, l.policy), l.policy.perTemplate, resources);
    ready := DeterministicReady(g).value;
    so := ScheduleFrom(c, ready, Chosen([], [], [])).value;
    BatchIsRight(c, ready, so);
    forall i | 0 <= i < |after| - |before| ensures LaunchedAt(before, after, so, i) {
      assert LaunchedFor(after[|before| + i], batch.selected[i], resources);
      ClaimsAreFree(c, ready, so, i);
    }
  }

  ghost predicate LaunchedAt(before: seq<Attempt>, after: seq<Attempt>, so: Chosen, i: nat)
    requires i < |so.selected| && |so.claimed| == |so.selected| && |before| + i < |after|
  {
    Launched(after[|before| + i], so.selected[i], so.claimed[i])
  }

  ghost predicate Step(l: RunLimits, before: seq<Attempt>, after: seq<Attempt>) {
    || Launches(l, before, after)
    || (|after| == |before| && forall i :: 0 <= i < |before| ==> Evolves(before[i], after[i]))
  }

  // ---------------------------------------------------------------- the invariant

  /** Two Attempts that hold own no two paths that overlap after canonicalising them twice. */
  ghost predicate PathsApart(a: Attempt, b: Attempt) {
    Holds(a) && Holds(b) ==> !MeetTwice(a.lease.resourceKeys, b.lease.resourceKeys)
  }

  ghost predicate Exclusive(attempts: seq<Attempt>) {
    forall i, j :: 0 <= i < j < |attempts| ==> PathsApart(attempts[i], attempts[j])
  }

  ghost predicate Bounded(l: RunLimits, attempts: seq<Attempt>) {
    && Count(attempts, Holds) <= l.policy.maxConcurrency && Count(attempts, Holds) <= l.graphLimit
    && forall template :: template in l.policy.perTemplate ==> OfTemplate(attempts, template) <= l.policy.perTemplate[template]
  }

  lemma {:induction false} SameHolding(attempts: seq<Attempt>, template: string)
    ensures OfTemplate(attempts, template) == HoldingOf(attempts, template)
  {
    CountSame(attempts, (a: Attempt) => Holds(a) && a.binding.id == template, HoldsFor(template));
  }

  ghost predicate Safe(l: RunLimits, attempts: seq<Attempt>) {
    Exclusive(attempts) && Bounded(l, attempts)
  }

  // ---------------------------------------------------------------- evolving keeps it

  lemma {:induction false} FewerHold(before: seq<Attempt>, after: seq<Attempt>, p: Attempt -> bool)
    requires |after| == |before| && forall i :: 0 <= i < |before| ==> (p(after[i]) ==> p(before[i]))
    ensures Count(after, p) <= Count(before, p)
    decreases |before|
  {
    if before != [] {
      assert p(after[0]) ==> p(before[0]);
      forall i | 0 <= i < |before[1..]| ensures p(after[1..][i]) ==> p(before[1..][i]) { assert after[1..][i] == after[i + 1] && before[1..][i] == before[i + 1]; }
      FewerHold(before[1..], after[1..], p);
    }
  }

  lemma {:induction false} EvolvingKeepsSafe(l: RunLimits, before: seq<Attempt>, after: seq<Attempt>)
    requires Safe(l, before) && |after| == |before| && forall i :: 0 <= i < |before| ==> Evolves(before[i], after[i])
    ensures Safe(l, after)
  {
    forall i | 0 <= i < |before| ensures SameUnit(before[i], after[i]) && (Holds(after[i]) ==> Holds(before[i])) { NobodyRegainsHold(before[i], after[i]); }
    FewerHold(before, after, Holds);
    forall template | template in l.policy.perTemplate ensures OfTemplate(after, template) <= l.policy.perTemplate[template] {
      SameHolding(before, template);
      SameHolding(after, template);
      FewerHold(before, after, HoldsFor(template));
    }
    forall i, j | 0 <= i < j < |after| ensures PathsApart(after[i], after[j]) { assert PathsApart(before[i], before[j]); }
  }

  // ---------------------------------------------------------------- launching keeps it

  lemma {:induction false} AllCount(s: seq<Attempt>, p: Attempt -> bool)
    requires forall i :: 0 <= i < |s| ==> p(s[i])
    ensures Count(s, p) == |s|
    decreases |s|
  {
    if s != [] {
      forall i | 0 <= i < |s[1..]| ensures p(s[1..][i]) { assert s[1..][i] == s[i + 1]; }
      AllCount(s[1..], p);
    }
  }

  lemma {:induction false} SameTally(launched: seq<Attempt>, selected: seq<Task>, template: string)
    requires |launched| == |selected|
    requires forall i :: 0 <= i < |launched| ==> Holds(launched[i]) && launched[i].binding == selected[i].policy.preferred
    ensures HoldingOf(launched, template) == SelectedOf(selected, template)
    decreases |launched|
  {
    if launched != [] {
      assert HoldsFor(template)(launched[0]) <==> RunsOn(template)(selected[0]);
      forall i | 0 <= i < |launched[1..]| ensures Holds(launched[1..][i]) && launched[1..][i].binding == selected[1..][i].policy.preferred {
        assert launched[1..][i] == launched[i + 1] && selected[1..][i] == selected[i + 1];
      }
      SameTally(launched[1..], selected[1..], template);
    }
  }

  lemma {:induction false} LaunchingKeepsBounds(l: RunLimits, before: seq<Attempt>, after: seq<Attempt>, c: Context, ready: seq<Task>, so: Chosen)
    requires Bounded(l, before) && LaunchesFrom(l, before, after, c, ready, so)
    ensures Bounded(l, after)
  {
    var n := |after| - |before|;
    var launched := after[|before|..];
    BatchIsRight(c, ready, so);
    AdmittedIsWithin(c, so.selected, so.claimed, n);
    assert after == before + launched;
    forall i | 0 <= i < n ensures Holds(launched[i]) && launched[i].binding == so.selected[..n][i].policy.preferred {
      assert LaunchedAt(before, after, so, i);
      assert launched[i] == after[|before| + i];
    }
    CountConcat(before, launched, Holds);
    AllCount(launched, Holds);
    forall template | template in l.policy.perTemplate ensures OfTemplate(after, template) <= l.policy.perTemplate[template] {
      SameHolding(before, template);
      SameHolding(after, template);
      CountConcat(before, launched, HoldsFor(template));
      SameTally(launched, so.selected[..n], template);
    }
  }

  lemma {:induction false} NotBlocked(claim: seq<string>, attempts: seq<Attempt>, a: Attempt)
    requires Holds(a) && a in attempts && ExclusiveConflicts(claim, attempts) == Ok([])
    ensures !MeetTwice(claim, a.lease.resourceKeys)
  {
    var requested := CanonicalPaths(claim).value;
    ExclusiveConflictsMeans(claim, attempts, a.id);
    assert KeyOk(a);
    assert !BlockedBy(requested, attempts, a.id);
    assert !Blocks(requested, a);
    AnyConflictTwice(claim, a.lease.resourceKeys, requested, CanonicalPaths(a.lease.resourceKeys).value);
  }

  /** A claim of the batch overlaps nothing that is held. */
  lemma {:induction false} ClaimIsFree(c: Context, ready: seq<Task>, so: Chosen, j: nat, a: Attempt)
    requires ScheduleFrom(c, ready, Chosen([], [], [])) == Ok(so) && |so.claimed| == |so.selected| && j < |so.selected|
    requires a in c.attempts && Holds(a)
    ensures !MeetTwice(a.lease.resourceKeys, so.claimed[j])
  {
    ClaimsAreFree(c, ready, so, j);
    NotBlocked(so.claimed[j], c.attempts, a);
    MeetSymmetric(a.lease.resourceKeys, so.claimed[j]);
  }

  lemma {:induction false} ClaimIsAbsolute(c: Context, ready: seq<Task>, so: Chosen, j: nat)
    requires ScheduleFrom(c, ready, Chosen([], [], [])) == Ok(so) && |so.claimed| == |so.selected| && j < |so.selected|
    ensures Absolute(so.claimed[j])
  {
    ClaimsAreFree(c, ready, so, j);
    CanonicalPathsMeans(so.claimed[j]);
  }

  lemma {:induction false} ClaimsApart(c: Context, ready: seq<Task>, so: Chosen, i: nat, j: nat)
    requires ScheduleFrom(c, ready, Chosen([], [], [])) == Ok(so) && |so.claimed| == |so.selected| && i < j < |so.selected|
    ensures !MeetTwice(so.claimed[i], so.claimed[j])
  {
    BatchIsExclusive(c, ready, so, i, j);
    ClaimIsAbsolute(c, ready, so, i);
    ClaimIsAbsolute(c, ready, so, j);
    SetsConflictExact(so.claimed[j], so.claimed[i]);
    MeetSymmetric(so.claimed[i], so.claimed[j]);
  }

  lemma {:induction false} MeetSymmetric(a: seq<string>, b: seq<string>)
    ensures MeetTwice(a, b) <==> MeetTwice(b, a)
  {
    if p, q :| p in a && q in b && OverlapTwice(p, q) { assert OverlapTwice(q, p); }
    if p, q :| p in b && q in a && OverlapTwice(p, q) { assert OverlapTwice(q, p); }
  }

  lemma {:induction false} LaunchedApart(l: RunLimits, before: seq<Attempt>, after: seq<Attempt>, c: Context, ready: seq<Task>, so: Chosen, i: nat, j: nat)
    requires Exclusive(before) && LaunchesFrom(l, before, after, c, ready, so) && i < j < |after|
    ensures PathsApart(after[i], after[j])
  {
    if j < |before| {
      OldFromOld(before, after, i, j);
    } else if i < |before| {
      LaunchedClaims(l, before, after, c, ready, so, j - |before|);
      OldFromNew(c, ready, so, before[i], after[j], j - |before|);
    } else {
      LaunchedClaims(l, before, after, c, ready, so, i - |before|);
      LaunchedClaims(l, before, after, c, ready, so, j - |before|);
      NewFromNew(c, ready, so, after[i], after[j], i - |before|, j - |before|);
    }
  }

  /** The Attempt claims the paths that its Task was selected with. */
  ghost predicate Claims(so: Chosen, a: Attempt, j: nat) {
    j < |so.selected| && |so.claimed| == |so.selected| && a.lease.resourceKeys == so.claimed[j]
  }

  lemma {:induction false} LaunchedClaims(l: RunLimits, before: seq<Attempt>, after: seq<Attempt>, c: Context, ready: seq<Task>, so: Chosen, j: nat)
    requires LaunchesFrom(l, before, after, c, ready, so) && |before| + j < |after|
    ensures Claims(so, after[|before| + j], j)
  {
    assert LaunchedAt(before, after, so, j);
  }

  lemma {:induction false} OldFromOld(before: seq<Attempt>, after: seq<Attempt>, i: nat, j: nat)
    requires Exclusive(before) && before <= after && i < j < |before|
    ensures PathsApart(after[i], after[j])
  {
    assert PathsApart(before[i], before[j]);
  }

  lemma {:induction false} OldFromNew(c: Context, ready: seq<Task>, so: Chosen, a: Attempt, b: Attempt, j: nat)
    requires ScheduleFrom(c, ready, Chosen([], [], [])) == Ok(so) && Claims(so, b, j)
    requires a in c.attempts
    ensures PathsApart(a, b)
  {
    if Holds(a) { ClaimIsFree(c, ready, so, j, a); }
  }

  lemma {:induction false} NewFromNew(c: Context, ready: seq<Task>, so: Chosen, a: Attempt, b: Attempt, i: nat, j: nat)
    requires ScheduleFrom(c, ready, Chosen([], [], [])) == Ok(so) && Claims(so, a, i) && Claims(so, b, j) && i < j
    ensures PathsApart(a, b)
  {
    ClaimsApart(c, ready, so, i, j);
  }

  lemma {:induction false} LaunchingKeepsSafe(l: RunLimits, before: seq<Attempt>, after: seq<Attempt>)
    requires Safe(l, before) && Launches(l, before, after)
    ensures Safe(l, after)
  {
    var g, resources, batch :| LaunchesBatch(l, before, after, g, resources, batch);
    var c, ready, so := BatchFromPass(l, before, after, g, resources, batch);
    LaunchingKeepsBounds(l, before, after, c, ready, so);
    forall i, j | 0 <= i < j < |after| ensures PathsApart(after[i], after[j]) { LaunchedApart(l, before, after, c, ready, so, i, j); }
  }

  ghost predicate IsRun(l: RunLimits, run: seq<seq<Attempt>>) {
    forall k :: 0 <= k < |run| - 1 ==> Step(l, run[k], run[k + 1])
  }

  /** Over any run from a safe state, capacity is never exceeded and no two Attempts that hold, retiring ones
      included, ever own paths that overlap after canonicalising them twice. */
  lemma {:induction false} RunsStaySafe(l: RunLimits, run: seq<seq<Attempt>>, n: nat)
    requires n < |run| && Safe(l, run[0]) && IsRun(l, run)
    ensures Safe(l, run[n])
    decreases n
  {
    if n > 0 {
      RunsStaySafe(l, run, n - 1);
      assert Step(l, run[n - 1], run[n - 1 + 1]);
      if Launches(l, run[n - 1], run[n]) { LaunchingKeepsSafe(l, run[n - 1], run[n]); } else { EvolvingKeepsSafe(l, run[n - 1], run[n]); }
    }
  }

  /** So two that own only paths whose canonical forms do not end in white space own no two conflicting ones. */
  lemma {:induction false} RunsAreExclusive(l: RunLimits, run: seq<seq<Attempt>>, n: nat, i: nat, j: nat)
    requires n < |run| && Safe(l, run[0]) && IsRun(l, run) && i < |run[n]| && j < |run[n]| && i != j
    requires Holds(run[n][i]) && Holds(run[n][j])
    requires AllSettle(run[n][i].lease.resourceKeys) && AllSettle(run[n][j].lease.resourceKeys)
    ensures !AnyConflict(run[n][i].lease.resourceKeys, run[n][j].lease.resourceKeys)
  {
    RunsStaySafe(l, run, n);
    var a, b := run[n][i], run[n][j];
    if i < j { assert PathsApart(a, b); } else { assert PathsApart(b, a); }
    MeetSymmetric(a.lease.resourceKeys, b.lease.resourceKeys);
    MeetSettled(a.lease.resourceKeys, b.lease.resourceKeys);
  }

  // ---------------------------------------------------------------- who keeps a hold, and until when

  lemma {:induction false} StepEvolves(l: RunLimits, before: seq<Attempt>, after: seq<Attempt>, x: nat)
    requires Step(l, before, after) && x < |before|
    ensures x < |after| && Evolves(before[x], after[x])
  {
  }

  /** The Attempt at place `x` in the state before and after step `k`. */
  ghost predicate FreedAt(run: seq<seq<Attempt>>, x: nat, k: nat)
    requires k + 1 < |run| && x < |run[k]| && x < |run[k + 1]|
  {
    Acknowledged(run[k][x], run[k + 1][x]) || FoundAbsent(run[k][x], run[k + 1][x])
  }

  ghost predicate EndedAt(run: seq<seq<Attempt>>, x: nat, k: nat)
    requires k + 1 < |run| && x < |run[k]| && x < |run[k + 1]|
  {
    Moves(run[k][x], run[k + 1][x]) && !InFlight(run[k + 1][x].status) && !run[k + 1][x].lease.retiring
  }

  /** Each listed Attempt stays listed at its place, and evolves there. */
  ghost predicate Unfolds(run: seq<seq<Attempt>>) {
    forall x: nat, k: nat :: EvolvesAt(run, x, k)
  }

  ghost predicate EvolvesAt(run: seq<seq<Attempt>>, x: nat, k: nat) {
    k + 1 < |run| && x < |run[k]| ==> x < |run[k + 1]| && Evolves(run[k][x], run[k + 1][x])
  }

  lemma {:induction false} RunUnfolds(l: RunLimits, run: seq<seq<Attempt>>)
    requires IsRun(l, run)
    ensures Unfolds(run)
  {
    forall x: nat, k: nat ensures EvolvesAt(run, x, k) {
      if k + 1 < |run| && x < |run[k]| {
        assert Step(l, run[k], run[k + 1]);
        StepEvolves(l, run[k], run[k + 1], x);
      }
    }
  }

  /** The Attempt is listed at every step of the run from the `i`-th. */
  ghost predicate Stays(run: seq<seq<Attempt>>, x: nat, i: nat) {
    forall k :: i <= k < |run| ==> x < |run[k]|
  }

  lemma {:induction false} ListedForGood(run: seq<seq<Attempt>>, x: nat, i: nat)
    requires Unfolds(run) && i < |run| && x < |run[i]|
    ensures Stays(run, x, i)
  {
    forall k | i <= k < |run| ensures x < |run[k]| { ListedAt(run, x, i, k); }
  }

  lemma {:induction false} ListedAt(run: seq<seq<Attempt>>, x: nat, i: nat, k: nat)
    requires Unfolds(run) && i <= k < |run| && x < |run[i]|
    ensures x < |run[k]|
    decreases k
  {
    if i < k {
      ListedAt(run, x, i, k - 1);
      LastStep(run, x, k);
    }
  }

  ghost predicate FreedBetween(run: seq<seq<Attempt>>, x: nat, i: nat, j: nat)
    requires Stays(run, x, i) && j < |run|
  {
    exists k :: i <= k < j && FreedAt(run, x, k)
  }

  ghost predicate EndedBetween(run: seq<seq<Attempt>>, x: nat, i: nat, j: nat)
    requires Stays(run, x, i) && j < |run|
  {
    exists k :: i <= k < j && EndedAt(run, x, k)
  }

  /** A lease is retiring only after a submission was received or the Attempt was cancelled. */
  ghost predicate RetiresLate(attempts: seq<Attempt>) {
    forall a :: a in attempts && a.lease.retiring ==> a.status in {Submitted, AttemptCancelled}
  }

  lemma {:induction false} StepRetiresLate(l: RunLimits, before: seq<Attempt>, after: seq<Attempt>)
    requires Step(l, before, after) && RetiresLate(before)
    ensures RetiresLate(after)
  {
    forall a | a in after && a.lease.retiring ensures a.status in {Submitted, AttemptCancelled} {
      var x :| 0 <= x < |after| && after[x] == a;
      if x < |before| {
        StepEvolves(l, before, after, x);
        assert before[x] in before;
      } else {
        LaunchedNotRetiring(l, before, after, x);
      }
    }
  }

  lemma {:induction false} LaunchedNotRetiring(l: RunLimits, before: seq<Attempt>, after: seq<Attempt>, x: nat)
    requires Step(l, before, after) && |before| <= x < |after|
    ensures !after[x].lease.retiring
  {
    var g, resources, batch :| LaunchesBatch(l, before, after, g, resources, batch);
    assert LaunchedFor(after[|before| + (x - |before|)], batch.selected[x - |before|], resources);
  }

  lemma {:induction false} RetiringIsLate(l: RunLimits, run: seq<seq<Attempt>>, n: nat)
    requires n < |run| && IsRun(l, run) && RetiresLate(run[0])
    ensures RetiresLate(run[n])
    decreases n
  {
    if n > 0 {
      RetiringIsLate(l, run, n - 1);
      assert Step(l, run[n - 1], run[n - 1 + 1]);
      StepRetiresLate(l, run[n - 1], run[n]);
    }
  }

  /** Nothing but definite absence makes reconciliation release. */
  lemma {:induction false} ReleasedIffAbsent(a: Attempt, a': Attempt)
    ensures Released(a, a') <==> FoundAbsent(a, a')
  {
    if Released(a, a') {
      var seen, now :| Reconcile(a, seen, now) in {ReplaceAndRelease, ReleaseRetiring};
      ReleaseIff(a, seen, now);
      assert Reconcile(a, DefinitelyAbsent, now) != NotRequired;
    }
    if FoundAbsent(a, a') {
      var now :| Reconcile(a, DefinitelyAbsent, now) != NotRequired && Assess(a, now).state == Suspect;
      assert Reconcile(a, DefinitelyAbsent, now) in {ReplaceAndRelease, ReleaseRetiring};
    }
  }

  lemma {:induction false} HoldLostByStep(a: Attempt, a': Attempt)
    requires Evolves(a, a') && Holds(a) && !Holds(a')
    ensures Acknowledged(a, a') || FoundAbsent(a, a') || (Moves(a, a') && !InFlight(a'.status) && !a'.lease.retiring)
  {
    ReleasedIffAbsent(a, a');
  }

  lemma {:induction false} LastStep(run: seq<seq<Attempt>>, x: nat, j: nat)
    requires Unfolds(run) && 0 < j < |run| && x < |run[j - 1]|
    ensures x < |run[j]| && Evolves(run[j - 1][x], run[j][x])
  {
    assert EvolvesAt(run, x, j - 1);
  }

  lemma {:induction false} FreedLater(run: seq<seq<Attempt>>, x: nat, i: nat, j: nat)
    requires Stays(run, x, i) && i < j < |run|
    ensures FreedBetween(run, x, i, j) <==> FreedBetween(run, x, i, j - 1) || FreedAt(run, x, j - 1)
  {
    if FreedBetween(run, x, i, j - 1) { var k :| i <= k < j - 1 && FreedAt(run, x, k); }
    if FreedBetween(run, x, i, j) { var k :| i <= k < j && FreedAt(run, x, k); }
  }

  lemma {:induction false} EndedLater(run: seq<seq<Attempt>>, x: nat, i: nat, j: nat)
    requires Stays(run, x, i) && i < j < |run|
    ensures EndedBetween(run, x, i, j) <==> EndedBetween(run, x, i, j - 1) || EndedAt(run, x, j - 1)
  {
    if EndedBetween(run, x, i, j - 1) { var k :| i <= k < j - 1 && EndedAt(run, x, k); }
    if EndedBetween(run, x, i, j) { var k :| i <= k < j && EndedAt(run, x, k); }
  }

  lemma {:induction false} HoldLostAt(run: seq<seq<Attempt>>, x: nat, j: nat)
    requires Unfolds(run) && 0 < j < |run| && x < |run[j - 1]| && x < |run[j]| && Holds(run[j - 1][x]) && !Holds(run[j][x])
    ensures FreedAt(run, x, j - 1) || EndedAt(run, x, j - 1)
  {
    LastStep(run, x, j);
    HoldLostByStep(run[j - 1][x], run[j][x]);
  }

  lemma {:induction false} LostBetween(run: seq<seq<Attempt>>, x: nat, i: nat, j: nat)
    requires Unfolds(run) && Stays(run, x, i) && i <= j < |run| && Holds(run[i][x]) && !Holds(run[j][x])
    ensures FreedBetween(run, x, i, j) || EndedBetween(run, x, i, j)
    decreases j
  {
    FreedLater(run, x, i, j);
    EndedLater(run, x, i, j);
    if Holds(run[j - 1][x]) { HoldLostAt(run, x, j); } else { LostBetween(run, x, i, j - 1); }
  }

  lemma {:induction false} SameUnitThroughout(run: seq<seq<Attempt>>, x: nat, i: nat, j: nat)
    requires Unfolds(run) && i <= j < |run| && x < |run[i]|
    ensures x < |run[j]| && SameUnit(run[i][x], run[j][x]) && (Holds(run[j][x]) ==> Holds(run[i][x]))
    decreases j
  {
    if i < j {
      SameUnitThroughout(run, x, i, j - 1);
      LastStep(run, x, j);
      NobodyRegainsHold(run[j - 1][x], run[j][x]);
    }
  }

  /** Over any run an Attempt stays the same unit of work with the same paths, never regains a hold that it lost,
      and loses one only in a step that ends it, acknowledges its cancellation or finds its executor absent. */
  lemma {:induction false} HoldsUntil(l: RunLimits, run: seq<seq<Attempt>>, x: nat, i: nat, j: nat)
    requires IsRun(l, run) && i <= j < |run| && x < |run[i]|
    ensures Stays(run, x, i) && SameUnit(run[i][x], run[j][x]) && (Holds(run[j][x]) ==> Holds(run[i][x]))
    ensures Holds(run[i][x]) && !Holds(run[j][x]) ==> FreedBetween(run, x, i, j) || EndedBetween(run, x, i, j)
  {
    RunUnfolds(l, run);
    ListedForGood(run, x, i);
    SameUnitThroughout(run, x, i, j);
    if Holds(run[i][x]) && !Holds(run[j][x]) { LostBetween(run, x, i, j); }
  }

  lemma {:induction false} CancelledWaits(a: Attempt, a': Attempt)
    requires Evolves(a, a') && a.lease.retiring && a.status == AttemptCancelled
    ensures if Acknowledged(a, a') || FoundAbsent(a, a') then !Holds(a') else a' == a
  {
    ReleasedIffAbsent(a, a');
  }

  lemma {:induction false} WaitsUntilFreed(run: seq<seq<Attempt>>, x: nat, i: nat, j: nat)
    requires Unfolds(run) && Stays(run, x, i) && i <= j < |run|
    requires run[i][x].lease.retiring && run[i][x].status == AttemptCancelled
    ensures Holds(run[j][x]) <==> !FreedBetween(run, x, i, j)
    ensures Holds(run[j][x]) ==> run[j][x] == run[i][x]
    decreases j
  {
    if i < j {
      WaitsUntilFreed(run, x, i, j - 1);
      LastStep(run, x, j);
      FreedLater(run, x, i, j);
      NobodyRegainsHold(run[j - 1][x], run[j][x]);
      if Holds(run[j - 1][x]) { CancelledWaits(run[j - 1][x], run[j][x]); }
    }
  }

  /** A cancelled Attempt whose executor is retiring stays exactly as it is, with its slot and its paths, through
      any run until a step acknowledges the cancellation or finds the executor absent; from then on it holds
      nothing. */
  lemma {:induction false} RetiringKeepsHold(l: RunLimits, run: seq<seq<Attempt>>, x: nat, i: nat, j: nat)
    requires IsRun(l, run) && i <= j < |run| && x < |run[i]|
    requires run[i][x].lease.retiring && run[i][x].status == AttemptCancelled
    ensures Stays(run, x, i) && (Holds(run[j][x]) <==> !FreedBetween(run, x, i, j))
    ensures Holds(run[j][x]) ==> run[j][x] == run[i][x]
  {
    RunUnfolds(l, run);
    ListedForGood(run, x, i);
    WaitsUntilFreed(run, x, i, j);
  }
}
