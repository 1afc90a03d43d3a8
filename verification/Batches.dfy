/** What a batch is in terms of the graph, the Attempts, the policy and the requested paths: which Task is selected,
    which is blocked, and why. */
module Batches {
  import opened Core
  import opened Items
  import opened Order
  import opened Attempts
  import opened Paths
  import opened Resources
  import opened Scheduler
  import opened SchedulerTheorems
  import V = Validation
  import R = Ready

  // ---------------------------------------------------------------- what stops a Task

  /** The paths that the Task asks for. */
  ghost function Wants(resources: map<Ref, seq<string>>, t: Task): seq<string> {
    if t.AsRef() in resources then resources[t.AsRef()] else []
  }

  ghost function OfTemplate(attempts: seq<Attempt>, template: string): nat {
    Count(attempts, (a: Attempt) => Holds(a) && a.binding.id == template)
  }

  ghost function Preferring(tasks: seq<Task>, template: string): nat {
    Count(tasks, (t: Task) => t.policy.preferred.id == template)
  }

  ghost predicate AtGlobal(c: Context, selected: nat) {
    Count(c.attempts, Holds) + selected >= c.limit
  }

  ghost predicate AtTemplate(c: Context, t: Task, selected: seq<Task>) {
    var template := t.policy.preferred.id;
    template in c.perTemplate && OfTemplate(c.attempts, template) + Preferring(selected, template) >= c.perTemplate[template]
  }

  /** An Attempt with this id holds a path that overlaps one of the claim, after canonicalising both twice. */
  ghost predicate Owns(c: Context, claim: seq<string>, id: string) {
    exists a :: a in c.attempts && a.id == id && Holds(a) && MeetTwice(claim, a.lease.resourceKeys)
  }

  ghost predicate MeetsHeld(c: Context, claim: seq<string>) {
    exists id :: Owns(c, claim, id)
  }

  /** A Task selected before claimed such a path. */
  ghost predicate MeetsClaimed(claim: seq<string>, claimed: seq<seq<string>>) {
    exists i :: 0 <= i < |claimed| && MeetTwice(claim, claimed[i])
  }

  ghost predicate FitsBeside(c: Context, t: Task, selected: seq<Task>, claimed: seq<seq<string>>, claim: seq<string>) {
    && !AtGlobal(c, |selected|) && !AtTemplate(c, t, selected)
    && CanonicalPaths(Wants(c.resources, t)) == Ok(claim) && !MeetsHeld(c, claim) && !MeetsClaimed(claim, claimed)
  }

  /** The reason given is the first of the three that applies, and the holders listed are those in the way. */
  ghost predicate StoppedBeside(c: Context, t: Task, selected: seq<Task>, claimed: seq<seq<string>>, b: Blocked) {
    && b.task == t.AsRef()
    && (b.reason == GlobalLimit <==> AtGlobal(c, |selected|))
    && (b.reason == TemplateLimit <==> !AtGlobal(c, |selected|) && AtTemplate(c, t, selected))
    && (b.reason != ResourceConflict ==> b.holders == [])
    && (b.reason == ResourceConflict ==> CanonicalPaths(Wants(c.resources, t)).Ok? && PathsStop(c, CanonicalPaths(Wants(c.resources, t)).value, claimed, b))
  }

  ghost predicate PathsStop(c: Context, claim: seq<string>, claimed: seq<seq<string>>, b: Blocked) {
    && (MeetsHeld(c, claim) || MeetsClaimed(claim, claimed))
    && (forall id :: id in b.holders <==> Owns(c, claim, id))
    && InOrder(b.holders)
  }

  lemma {:induction false} CountSame<T>(s: seq<T>, p: T -> bool, q: T -> bool)
    requires forall i :: 0 <= i < |s| ==> p(s[i]) == q(s[i])
    ensures Count(s, p) == Count(s, q)
    decreases |s|
  {
    if s != [] {
      forall i | 0 <= i < |s[1..]| ensures p(s[1..][i]) == q(s[1..][i]) { assert s[1..][i] == s[i + 1]; }
      CountSame(s[1..], p, q);
    }
  }

  lemma {:induction false} TemplateIff(c: Context, t: Task, selected: seq<Task>)
    ensures AtTemplateLimit(c, TemplateOf(t), selected) <==> AtTemplate(c, t, selected)
  {
    var template := t.policy.preferred.id;
    CountSame(c.attempts, HoldsFor(template), (a: Attempt) => Holds(a) && a.binding.id == template);
    CountSame(selected, RunsOn(template), (u: Task) => u.policy.preferred.id == template);
  }

  lemma {:induction false} ClaimedIff(claim: seq<string>, claimed: seq<seq<string>>)
    requires Absolute(claim) && forall i :: 0 <= i < |claimed| ==> Absolute(claimed[i])
    ensures ClaimConflict(claim, claimed) <==> MeetsClaimed(claim, claimed)
  {
    forall i | 0 <= i < |claimed| ensures SetsConflict(claim, claimed[i]) == Ok(MeetTwice(claim, claimed[i])) { SetsConflictExact(claim, claimed[i]); }
  }

  lemma {:induction false} CanonicalClaim(paths: seq<string>)
    requires CanonicalPaths(paths).Ok?
    ensures Absolute(CanonicalPaths(paths).value)
  {
    CanonicalPathsMeans(paths);
    forall c | c in CanonicalPaths(paths).value ensures Canonical(c).Ok? {
      var p :| p in paths && Canonical(p) == Ok(c);
      CanonicalAgain(p);
    }
  }

  lemma {:induction false} HolderIff(c: Context, claim: seq<string>, id: string)
    requires ExclusiveConflicts(claim, c.attempts).Ok?
    ensures HasHolder(ExclusiveConflicts(claim, c.attempts).value, id) <==> Owns(c, claim, id)
  {
    ExclusiveConflictsMeans(claim, c.attempts, id);
    var canonical := CanonicalPaths(claim).value;
    forall a | a in c.attempts ensures Blocks(canonical, a) <==> Holds(a) && MeetTwice(claim, a.lease.resourceKeys) {
      assert KeyOk(a);
      if Holds(a) { AnyConflictTwice(claim, a.lease.resourceKeys, canonical, CanonicalPaths(a.lease.resourceKeys).value); }
    }
  }

  lemma {:induction false} HoldersRight(c: Context, claim: seq<string>)
    requires ExclusiveConflicts(claim, c.attempts).Ok?
    ensures var conflicts := ExclusiveConflicts(claim, c.attempts).value;
      && (conflicts != [] <==> MeetsHeld(c, claim))
      && (forall id :: id in HolderIds(conflicts) <==> Owns(c, claim, id))
      && InOrder(HolderIds(conflicts))
  {
    var conflicts := ExclusiveConflicts(claim, c.attempts).value;
    HoldersListed(conflicts);
    forall id ensures HasHolder(conflicts, id) <==> Owns(c, claim, id) { HolderIff(c, claim, id); }
    SortedDistinct(Holders(conflicts));
  }

  /** Strictly ascending. */
  ghost predicate InOrder(ids: seq<string>) {
    forall i, j :: 0 <= i < j < |ids| ==> ids[i] != ids[j] && LessEq(ids[i], ids[j])
  }

  lemma {:induction false} SortedDistinct(ids: seq<string>)
    ensures InOrder(Sort(Distinct(ids), LessEq)) && forall id :: id in Sort(Distinct(ids), LessEq) <==> id in ids
  {
    var d, s := Distinct(ids), Sort(Distinct(ids), LessEq);
    StringOrder();
    SortSorts(d, LessEq);
    DistinctMultiset(d);
    forall i, j | 0 <= i < j < |s| ensures s[i] != s[j] {
      if s[i] == s[j] { TwiceListed(s, i, j); }
    }
  }

  lemma {:induction false} TwiceListed(s: seq<string>, i: nat, j: nat)
    requires i < j < |s| && s[i] == s[j]
    ensures multiset(s)[s[i]] >= 2
  {
    assert s == s[..i] + [s[i]] + s[i + 1..j] + [s[j]] + s[j + 1..];
  }

  // ---------------------------------------------------------------- one Task, and one pass

  ghost predicate AllAbsolute(claimed: seq<seq<string>>) {
    forall i :: 0 <= i < |claimed| ==> Absolute(claimed[i])
  }

  lemma {:induction false} PathsExact(c: Context, t: Task, claimed: seq<seq<string>>)
    requires AllAbsolute(claimed)
    ensures match ConsiderPaths(c, PathsOf(c, t), claimed)
      case BadPath => true
      case Fits(claim) => CanonicalPaths(Wants(c.resources, t)) == Ok(claim) && Absolute(claim) && !MeetsHeld(c, claim) && !MeetsClaimed(claim, claimed)
      case Stop(reason, holders) =>
        reason == ResourceConflict && CanonicalPaths(Wants(c.resources, t)).Ok?
        && PathsStop(c, CanonicalPaths(Wants(c.resources, t)).value, claimed, Blocked(t.AsRef(), reason, holders))
  {
    var paths := PathsOf(c, t);
    if CanonicalPaths(paths).Ok? {
      var claim := CanonicalPaths(paths).value;
      CanonicalClaim(paths);
      ClaimedIff(claim, claimed);
      if ExclusiveConflicts(claim, c.attempts).Ok? { HoldersRight(c, claim); }
    }
  }

  lemma {:induction false} ConsiderExact(c: Context, t: Task, selected: seq<Task>, claimed: seq<seq<string>>)
    requires AllAbsolute(claimed)
    ensures match Consider(c, t, selected, claimed)
      case BadPath => true
      case Fits(claim) => FitsBeside(c, t, selected, claimed, claim) && Absolute(claim)
      case Stop(reason, holders) => StoppedBeside(c, t, selected, claimed, Blocked(t.AsRef(), reason, holders))
  {
    TemplateIff(c, t, selected);
    PathsExact(c, t, claimed);
  }

  /** Task `k` of the list, before which `before[k]` Tasks were selected and the others blocked: it is the next one
      selected, and fits beside those, or the next one blocked, for the reason given. */
  ghost predicate PlacedAt(c: Context, todo: seq<Task>, end: Chosen, before: seq<nat>, k: nat, offset: nat) {
    && k < |todo| && k + 1 < |before| && |end.claimed| == |end.selected| && before[k] <= |end.selected| && before[k] <= offset + k
    && var n := before[k];
       if before[k + 1] == n + 1 then
         n < |end.selected| && end.selected[n] == todo[k] && FitsBeside(c, todo[k], end.selected[..n], end.claimed[..n], end.claimed[n])
       else
         before[k + 1] == n && offset + k - n < |end.blocked|
         && StoppedBeside(c, todo[k], end.selected[..n], end.claimed[..n], end.blocked[offset + k - n])
  }

  ghost predicate Placed(c: Context, todo: seq<Task>, so: Chosen, end: Chosen, before: seq<nat>) {
    && |before| == |todo| + 1 && before[0] == |so.selected| && before[|todo|] == |end.selected| && |end.claimed| == |end.selected|
    && so.selected <= end.selected && so.claimed <= end.claimed && so.blocked <= end.blocked
    && |end.selected| + |end.blocked| == |so.selected| + |so.blocked| + |todo|
    && AllPlaced(c, todo, end, before, |so.selected| + |so.blocked|)
  }

  ghost predicate AllPlaced(c: Context, todo: seq<Task>, end: Chosen, before: seq<nat>, offset: nat) {
    forall k: nat :: k < |todo| ==> PlacedAt(c, todo, end, before, k, offset)
  }

  lemma {:induction false} PlacedCons(c: Context, todo: seq<Task>, so: Chosen, next: Chosen, end: Chosen, rest: seq<nat>)
    requires todo != [] && Placed(c, todo[1..], next, end, rest) && |next.selected| + |next.blocked| == |so.selected| + |so.blocked| + 1
    requires so.selected <= next.selected && so.claimed <= next.claimed && so.blocked <= next.blocked
    requires PlacedAt(c, todo, end, [|so.selected|] + rest, 0, |so.selected| + |so.blocked|)
    ensures Placed(c, todo, so, end, [|so.selected|] + rest)
  {
    var before, offset := [|so.selected|] + rest, |so.selected| + |so.blocked|;
    var later := |next.selected| + |next.blocked|;
    forall k: nat | k < |todo| ensures PlacedAt(c, todo, end, before, k, offset) {
      if k > 0 {
        assert PlacedAt(c, todo[1..], end, rest, k - 1, later);
        assert before[k] == rest[k - 1] && before[k + 1] == rest[k] && todo[k] == todo[1..][k - 1];
      }
    }
  }

  lemma {:induction false} PassExact(c: Context, todo: seq<Task>, so: Chosen, end: Chosen) returns (before: seq<nat>)
    requires ScheduleFrom(c, todo, so) == Ok(end) && AllAbsolute(so.claimed) && |so.claimed| == |so.selected|
    ensures Placed(c, todo, so, end, before)
    decreases |todo|
  {
    before := [|so.selected|];
    if todo != [] {
      ConsiderExact(c, todo[0], so.selected, so.claimed);
      match Consider(c, todo[0], so.selected, so.claimed)
      case Stop(reason, holders) =>
        var b := Blocked(todo[0].AsRef(), reason, holders);
        var next := so.(blocked := so.blocked + [b]);
        var rest := PassExact(c, todo[1..], next, end);
        StoppedFirst(c, todo, so, next, end, rest, b);
        PlacedCons(c, todo, so, next, end, rest);
        before := before + rest;
      case Fits(claim) =>
        var next := so.(selected := so.selected + [todo[0]], claimed := so.claimed + [claim]);
        var rest := PassExact(c, todo[1..], next, end);
        SelectedFirst(c, todo, so, next, end, rest, claim);
        PlacedCons(c, todo, so, next, end, rest);
        before := before + rest;
    }
  }

  lemma {:induction false} StoppedFirst(c: Context, todo: seq<Task>, so: Chosen, next: Chosen, end: Chosen, rest: seq<nat>, b: Blocked)
    requires todo != [] && |so.claimed| == |so.selected| && StoppedBeside(c, todo[0], so.selected, so.claimed, b)
    requires next == so.(blocked := so.blocked + [b]) && Placed(c, todo[1..], next, end, rest)
    ensures PlacedAt(c, todo, end, [|so.selected|] + rest, 0, |so.selected| + |so.blocked|)
  {
    assert end.selected[..|so.selected|] == so.selected && end.claimed[..|so.selected|] == so.claimed;
    assert end.blocked[|so.blocked|] == next.blocked[|so.blocked|] == b;
  }

  lemma {:induction false} SelectedFirst(c: Context, todo: seq<Task>, so: Chosen, next: Chosen, end: Chosen, rest: seq<nat>, claim: seq<string>)
    requires todo != [] && |so.claimed| == |so.selected| && FitsBeside(c, todo[0], so.selected, so.claimed, claim)
    requires next == so.(selected := so.selected + [todo[0]], claimed := so.claimed + [claim]) && Placed(c, todo[1..], next, end, rest)
    ensures PlacedAt(c, todo, end, [|so.selected|] + rest, 0, |so.selected| + |so.blocked|)
  {
    var n := |so.selected|;
    assert end.selected[..n] == so.selected && end.claimed[..n] == so.claimed;
    assert end.selected[n] == next.selected[n] && end.claimed[n] == next.claimed[n];
  }

  // ---------------------------------------------------------------- the whole batch

  /** The lower of the two limits. */
  ghost predicate IsLowest(limit: int, p: Policy, g: Graph) {
    && limit <= p.maxConcurrency && limit <= g.limits.maxConcurrency
    && (limit == p.maxConcurrency || limit == g.limits.maxConcurrency)
  }

  /** Each Task that may start is taken once: the higher priority first, at the same priority what is required, then
      the smaller id, then the older revision. */
  ghost predicate TakenInOrder(g: Graph, order: seq<Task>)
    requires V.Shaped(g)
  {
    && R.Once(order) && (forall t :: t in order <==> R.MayStart(g, t))
    && forall i, j :: 0 <= i < j < |order| ==> TakenBefore(order[i], order[j])
  }

  ghost predicate TakenBefore(a: Task, b: Task) {
    && a.priority >= b.priority && (a.priority == b.priority && b.required ==> a.required)
    && (a.priority == b.priority && a.required == b.required ==> LessEq(a.id, b.id) && (a.id == b.id ==> a.revision <= b.revision))
  }

  lemma {:induction false} ReadyInOrder(g: Graph, order: seq<Task>)
    requires DeterministicReady(g) == Ok(order)
    ensures V.Valid(g, false) && TakenInOrder(g, order)
  {
    R.ReadyTasksMeans(g);
    R.ReadyListOnce(g);
    TakeOrder();
    SortSorts(R.ReadyList(g), TakeBefore);
    assert multiset(order) == multiset(R.ReadyList(g));
    forall i, j | 0 <= i < j < |order| ensures TakenBefore(order[i], order[j]) { assert TakeBefore(order[i], order[j]); }
  }

  /** A batch takes the Tasks that may start in order, each selected Task fits beside those selected before it, within
      the lower of the two global limits, and each blocked one is stopped by the first limit that it hits. */
  lemma {:induction false} ScheduleMeans(g: Graph, attempts: seq<Attempt>, p: Policy, resources: map<Ref, seq<string>>, batch: Batch)
    returns (order: seq<Task>, claims: seq<seq<string>>, before: seq<nat>, limit: int)
    requires Schedule(g, attempts, p, resources) == Ok(batch)
    ensures V.Valid(g, false) && TakenInOrder(g, order) && IsLowest(limit, p, g)
    ensures Placed(Context(attempts, limit, p.perTemplate, resources), order, Chosen([], [], []), Chosen(batch.selected, claims, batch.blocked), before)
    ensures batch.occupied == Count(attempts, Holds)
  {
    limit := GlobalLimitOf(g, p);
    order := DeterministicReady(g).value;
    var c := Context(attempts, limit, p.perTemplate, resources);
    var so := ScheduleFrom(c, order, Chosen([], [], [])).value;
    claims := so.claimed;
    ReadyInOrder(g, order);
    before := PassExact(c, order, Chosen([], [], []), so);
  }

  /** The Task selected last fitted within both global limits, so all of them do; a Task is blocked by the global
      limit only once one of the two is reached. */
  lemma {:induction false} BatchWithinLimits(g: Graph, attempts: seq<Attempt>, p: Policy, resources: map<Ref, seq<string>>, batch: Batch)
    requires Schedule(g, attempts, p, resources) == Ok(batch)
    ensures batch.selected != [] ==>
      && Count(attempts, Holds) + |batch.selected| <= p.maxConcurrency
      && Count(attempts, Holds) + |batch.selected| <= g.limits.maxConcurrency
    ensures (exists b :: b in batch.blocked && b.reason == GlobalLimit) ==>
      || Count(attempts, Holds) + |batch.selected| >= p.maxConcurrency
      || Count(attempts, Holds) + |batch.selected| >= g.limits.maxConcurrency
  {
    var order, claims, before, limit := ScheduleMeans(g, attempts, p, resources, batch);
    var c, end := Context(attempts, limit, p.perTemplate, resources), Chosen(batch.selected, claims, batch.blocked);
    if batch.selected != [] {
      var k := PlaceOfSelected(c, order, end, before, |batch.selected| - 1);
    }
    if b :| b in batch.blocked && b.reason == GlobalLimit {
      var i :| 0 <= i < |batch.blocked| && batch.blocked[i] == b;
      var k := PlaceOfBlocked(c, order, end, before, i);
    }
  }

  lemma {:induction false} PlacedFromStart(c: Context, order: seq<Task>, end: Chosen, before: seq<nat>, k: nat)
    requires Placed(c, order, Chosen([], [], []), end, before) && k < |order|
    ensures PlacedAt(c, order, end, before, k, 0)
  {
    var so := Chosen([], [], []);
    assert PlacedAt(c, order, end, before, k, |so.selected| + |so.blocked|);
  }

  lemma {:induction false} PlaceOfSelected(c: Context, order: seq<Task>, end: Chosen, before: seq<nat>, n: nat) returns (k: nat)
    requires Placed(c, order, Chosen([], [], []), end, before) && n < |end.selected|
    ensures k < |order| && before[k] == n && before[k + 1] == n + 1
    ensures end.selected[n] == order[k] && FitsBeside(c, order[k], end.selected[..n], end.claimed[..n], end.claimed[n])
  {
    k := LastAtMost(before, n);
    PlacedFromStart(c, order, end, before, k);
  }

  /** The last place before which at most `n` were selected; more are selected in the end. */
  lemma {:induction false} LastAtMost(before: seq<nat>, n: nat) returns (k: nat)
    requires before != [] && before[0] <= n < before[|before| - 1]
    ensures k + 1 < |before| && before[k] <= n < before[k + 1]
  {
    k := 0;
    while before[k + 1] <= n
      invariant k + 1 < |before| && before[k] <= n
      decreases |before| - k
    {
      k := k + 1;
    }
  }

  lemma {:induction false} PlaceOfBlocked(c: Context, order: seq<Task>, end: Chosen, before: seq<nat>, i: nat) returns (k: nat)
    requires Placed(c, order, Chosen([], [], []), end, before) && i < |end.blocked|
    ensures k < |order| && before[k] <= |end.selected|
    ensures StoppedBeside(c, order[k], end.selected[..before[k]], end.claimed[..before[k]], end.blocked[i])
  {
    k := 0;
    while k + 1 - before[k + 1] <= i
      invariant k < |order| && before[k] <= k && k - before[k] <= i
      decreases |order| - k
    {
      PlacedFromStart(c, order, end, before, k);
      k := k + 1;
    }
    PlacedFromStart(c, order, end, before, k);
  }

  // ---------------------------------------------------------------- when there is a batch

  lemma {:induction false} PassSucceeds(c: Context, todo: seq<Task>, so: Chosen)
    requires KeysOk(c.attempts) && forall t :: t in todo ==> Absolute(Wants(c.resources, t))
    ensures ScheduleFrom(c, todo, so).Ok?
    decreases |todo|
  {
    if todo != [] {
      var paths := PathsOf(c, todo[0]);
      assert todo[0] in todo;
      CanonicalPathsMeans(paths);
      CanonicalClaim(paths);
      CanonicalPathsMeans(CanonicalPaths(paths).value);
      ExclusiveConflictsMeans(CanonicalPaths(paths).value, c.attempts, "");
      match Consider(c, todo[0], so.selected, so.claimed)
      case Stop(reason, holders) => PassSucceeds(c, todo[1..], so.(blocked := so.blocked + [Blocked(todo[0].AsRef(), reason, holders)]));
      case Fits(requested) => PassSucceeds(c, todo[1..], so.(selected := so.selected + [todo[0]], claimed := so.claimed + [requested]));
    }
  }

  /** Scheduling raises on an invalid graph, and otherwise only if an Attempt holds, or a Task that may start asks for,
      something that is not an absolute path. */
  lemma {:induction false} ScheduleSucceeds(g: Graph, attempts: seq<Attempt>, p: Policy, resources: map<Ref, seq<string>>)
    ensures Schedule(g, attempts, p, resources).Ok? ==> V.Valid(g, false)
    ensures V.Valid(g, false) && (forall a :: a in attempts && Holds(a) ==> Absolute(a.lease.resourceKeys))
      && (forall t :: R.MayStart(g, t) ==> Absolute(Wants(resources, t)))
      ==> Schedule(g, attempts, p, resources).Ok?
  {
    R.ReadyTasksMeans(g);
    if V.Valid(g, false) && (forall a :: a in attempts && Holds(a) ==> Absolute(a.lease.resourceKeys))
       && (forall t :: R.MayStart(g, t) ==> Absolute(Wants(resources, t))) {
      forall a | a in attempts ensures KeyOk(a) { CanonicalPathsMeans(a.lease.resourceKeys); }
      ReadyInOrder(g, DeterministicReady(g).value);
      PassSucceeds(Context(attempts, GlobalLimitOf(g, p), p.perTemplate, resources), DeterministicReady(g).value, Chosen([], [], []));
    }
  }
}
