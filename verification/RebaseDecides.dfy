/** Exactly when a rebase can be planned, and exactly what the plan retains. */
module RebaseDecides {
  import opened Core
  import opened Items
  import opened Text
  import opened Order
  import opened Attempts
  import opened Closure
  import opened Validation
  import opened Rebase
  import opened RebaseProofs
  import opened RebaseValid
  import opened RebaseTheorems
  import R = Ready

  // ---------------------------------------------------------------- proofs

  /** The proof passed, may be reused, and agrees with the item and the new Intent in every field. */
  ghost predicate FitsExactly(p: Proof, m: Item, intent: Intent) {
    && p.passed && p.reusable && p.target == m.AsRef() && p.newVersion == intent.version && p.newFingerprint == intent.fingerprint
    && p.dependencies == m.Mentions() && HasText(p.validatorFingerprint)
    && match m
       case TaskItem(t) => p.priorVersion == t.intentVersion && p.bindingHash == t.intentBindingHash && p.contract == t.contract
       case GroupItem(g) => p.priorVersion == g.intentVersion && p.bindingHash == g.intentBindingHash && p.contract == g.contract
  }

  /** Work that was begun and has such a proof. */
  ghost predicate Reusable(m: Item, reuse: seq<Proof>, intent: Intent) {
    m.Status() != Pending && m.Status() != Failed && m.Status() != Cancelled && exists p :: p in reuse && FitsExactly(p, m, intent)
  }

  /** Live items, each mentioned by the one before it. */
  ghost predicate IsMentionChain(live: seq<Item>, path: seq<Item>) {
    && path != [] && (forall k :: 0 <= k < |path| ==> path[k] in live)
    && forall k :: 0 <= k < |path| - 1 ==> path[k + 1].AsRef() in path[k].Mentions()
  }

  /** The item and every live item that it reaches through mentions is reusable. */
  ghost predicate Kept(live: seq<Item>, reuse: seq<Proof>, intent: Intent, m: Item) {
    forall path :: IsMentionChain(live, path) && path[0] == m ==> Reusable(path[|path| - 1], reuse, intent)
  }

  ghost predicate DistinctTargets(reuse: seq<Proof>) {
    forall i, j :: 0 <= i < j < |reuse| ==> reuse[i].target != reuse[j].target
  }

  /** The index holds each proof under its target, and exists exactly if no two have the same. */
  lemma {:induction false} IndexIff(reuse: seq<Proof>)
    ensures ProofIndex(reuse).Some? <==> DistinctTargets(reuse)
    ensures ProofIndex(reuse).Some? ==>
      forall r, p :: (r in ProofIndex(reuse).value && ProofIndex(reuse).value[r] == p) <==> p in reuse && p.target == r
    decreases |reuse|
  {
    if reuse != [] {
      var before, last := reuse[..|reuse| - 1], reuse[|reuse| - 1];
      IndexIff(before);
      assert reuse == before + [last];
      if ProofIndex(before).Some? && last.target in ProofIndex(before).value {
        var p := ProofIndex(before).value[last.target];
        var i :| 0 <= i < |before| && before[i] == p;
        assert reuse[i].target == reuse[|reuse| - 1].target;
      }
      if ProofIndex(before).Some? && last.target !in ProofIndex(before).value {
        forall i | 0 <= i < |before| ensures before[i].target != last.target { assert before[i] in before; }
      }
    }
  }

  lemma {:induction false} ExactIff(m: Item, reuse: seq<Proof>, proofs: map<Ref, Proof>, intent: Intent)
    requires ProofIndex(reuse) == Some(proofs)
    ensures m.Status() == Pending || !HasExactProof(m, proofs, intent) <==> !Reusable(m, reuse, intent)
  {
    IndexIff(reuse);
    if p :| p in reuse && FitsExactly(p, m, intent) {
      assert proofs[m.AsRef()] == p;
      BlankIff(p.validatorFingerprint);
    }
    if HasExactProof(m, proofs, intent) {
      BlankIff(proofs[m.AsRef()].validatorFingerprint);
      assert FitsExactly(proofs[m.AsRef()], m, intent);
    }
  }

  // ---------------------------------------------------------------- what is retained

  lemma {:induction false} ChainStaysRetained(live: seq<Item>, proofs: map<Ref, Proof>, intent: Intent, path: seq<Item>, k: nat)
    requires IsMentionChain(live, path) && k < |path| && path[0].AsRef() !in ReplacedSet(live, proofs, intent)
    ensures path[k].AsRef() !in ReplacedSet(live, proofs, intent)
    decreases k
  {
    if k > 0 {
      ChainStaysRetained(live, proofs, intent, path, k - 1);
      RetainedIsProven(live, proofs, intent, path[k - 1]);
      assert path[k - 1 + 1].AsRef() in path[k - 1].Mentions();
    }
  }

  lemma {:induction false} RetainedAreKept(live: seq<Item>, reuse: seq<Proof>, proofs: map<Ref, Proof>, intent: Intent, m: Item)
    requires ProofIndex(reuse) == Some(proofs) && m in live && m.AsRef() !in ReplacedSet(live, proofs, intent)
    ensures Kept(live, reuse, intent, m)
  {
    forall path | IsMentionChain(live, path) && path[0] == m ensures Reusable(path[|path| - 1], reuse, intent) {
      ChainStaysRetained(live, proofs, intent, path, |path| - 1);
      RetainedIsProven(live, proofs, intent, path[|path| - 1]);
      ExactIff(path[|path| - 1], reuse, proofs, intent);
    }
  }

  ghost function Unkept(live: seq<Item>, reuse: seq<Proof>, intent: Intent): set<Ref> {
    set m | m in live && !Kept(live, reuse, intent, m) :: m.AsRef()
  }

  lemma {:induction false} UnkeptSpreads(live: seq<Item>, reuse: seq<Proof>, intent: Intent, m: Item, n: Item)
    requires m in live && n in live && n.AsRef() in m.Mentions() && !Kept(live, reuse, intent, n)
    ensures !Kept(live, reuse, intent, m)
  {
    var path :| IsMentionChain(live, path) && path[0] == n && !Reusable(path[|path| - 1], reuse, intent);
    var longer := [m] + path;
    forall k | 0 <= k < |longer| - 1 ensures longer[k + 1].AsRef() in longer[k].Mentions() {
      if k > 0 { assert longer[k] == path[k - 1] && longer[k + 1] == path[k - 1 + 1]; }
    }
    assert IsMentionChain(live, longer) && longer[|longer| - 1] == path[|path| - 1];
  }

  lemma {:induction false} UnkeptIsClosed(live: seq<Item>, reuse: seq<Proof>, intent: Intent)
    ensures ClosedUnder(live, Unkept(live, reuse, intent))
  {
    var bound := Unkept(live, reuse, intent);
    forall i | 0 <= i < |live| && MentionsAny(live[i], bound) ensures live[i].AsRef() in bound {
      var k :| 0 <= k < |live[i].Mentions()| && live[i].Mentions()[k] in bound;
      var n :| n in live && !Kept(live, reuse, intent, n) && n.AsRef() == live[i].Mentions()[k];
      UnkeptSpreads(live, reuse, intent, live[i], n);
    }
  }

  lemma {:induction false} ReplacedAreUnkept(live: seq<Item>, reuse: seq<Proof>, proofs: map<Ref, Proof>, intent: Intent)
    requires ProofIndex(reuse) == Some(proofs)
    ensures ReplacedSet(live, proofs, intent) <= Unkept(live, reuse, intent)
  {
    UnkeptIsClosed(live, reuse, intent);
    forall m | m in live && (m.Status() == Pending || !HasExactProof(m, proofs, intent)) ensures m.AsRef() in Unkept(live, reuse, intent) {
      ExactIff(m, reuse, proofs, intent);
      assert IsMentionChain(live, [m]) && [m][0] == m;
    }
    ReplacedIsLeast(live, proofs, intent, Unkept(live, reuse, intent));
  }

  /** What is replaced is exactly what is not kept. */
  lemma {:induction false} ReplacedIff(live: seq<Item>, reuse: seq<Proof>, proofs: map<Ref, Proof>, intent: Intent, m: Item)
    requires ProofIndex(reuse) == Some(proofs) && m in live && forall n :: n in live && n.AsRef() == m.AsRef() ==> n == m
    ensures m.AsRef() in ReplacedSet(live, proofs, intent) <==> !Kept(live, reuse, intent, m)
  {
    ReplacedAreUnkept(live, reuse, proofs, intent);
    if m.AsRef() !in ReplacedSet(live, proofs, intent) { RetainedAreKept(live, reuse, proofs, intent, m); }
  }

  lemma {:induction false} LiveRefUnique(g: Graph, m: Item)
    requires Shaped(g) && m in LiveItems(g)
    ensures forall n :: n in LiveItems(g) && n.AsRef() == m.AsRef() ==> n == m
  {
    forall n | n in LiveItems(g) && n.AsRef() == m.AsRef() ensures n == m {
      if m.TaskItem? {
        LookupUnique(TaskItems(g.tasks), m);
        LookupUnique(TaskItems(g.tasks), n);
      } else {
        LookupUnique(GroupItems(g.groups), m);
        LookupUnique(GroupItems(g.groups), n);
      }
    }
  }

  /** The decision about one live item: it is retained, on the strength of its proof, exactly if it is kept, and
      otherwise invalidated in favour of a revision that is newer than all listed ones of its logical id. */
  ghost predicate DecidedRight(g: Graph, live: seq<Item>, reuse: seq<Proof>, intent: Intent, m: Item, d: Decision) {
    && d.target == m.AsRef()
    && (d.Retain? <==> Kept(live, reuse, intent, m))
    && (d.Retain? ==> exists p :: p in reuse && FitsExactly(p, m, intent) && d.proofId == p.recordId)
    && (d.Invalidate? ==>
          && d.replacement.Logical() == m.AsRef().Logical()
          && forall o :: o in AllItems(g) && o.AsRef().Logical() == m.AsRef().Logical() ==> o.AsRef().revision < d.replacement.revision)
  }

  /** The plan decides about every live item, in order: retained is exactly the work that was begun and exactly
      proven, together with all live items that it reaches through mentions. */
  lemma {:induction false} RetainedIff(s: State, intent: Intent, reuse: seq<Proof>, plan: Plan)
    requires Shaped(s.graph) && PlanRebase(s, intent, reuse) == Ok(plan)
    ensures |plan.decisions| == |LiveItems(s.graph)|
    ensures forall i :: 0 <= i < |plan.decisions| ==>
      DecidedRight(s.graph, LiveItems(s.graph), reuse, intent, LiveItems(s.graph)[i], plan.decisions[i])
  {
    PlanIsFromLive(s, intent, reuse, plan);
    var g, live, proofs := s.graph, LiveItems(s.graph), ProofIndex(reuse).value;
    RetainedHaveProofs(live, proofs, intent);
    DecisionsSucceed(g, live, ReplacedSet(live, proofs, intent), proofs);
    forall i | 0 <= i < |plan.decisions| ensures DecidedRight(g, live, reuse, intent, live[i], plan.decisions[i]) {
      DecidesRight(g, live, reuse, proofs, intent, live[i], plan.decisions[i]);
    }
  }

  lemma {:induction false} DecidesRight(g: Graph, live: seq<Item>, reuse: seq<Proof>, proofs: map<Ref, Proof>, intent: Intent, m: Item, d: Decision)
    requires Shaped(g) && live == LiveItems(g) && m in live && ProofIndex(reuse) == Some(proofs)
    requires Decide(g, ReplacedSet(live, proofs, intent), m, proofs) == Some(d)
    ensures DecidedRight(g, live, reuse, intent, m, d)
  {
    LiveRefUnique(g, m);
    ReplacedIff(live, reuse, proofs, intent, m);
    IndexIff(reuse);
    if d.Retain? {
      RetainedIsProven(live, proofs, intent, m);
      BlankIff(proofs[m.AsRef()].validatorFingerprint);
      assert FitsExactly(proofs[m.AsRef()], m, intent);
    }
  }

  // ---------------------------------------------------------------- when there is a plan

  ghost predicate SeemsCurrent(i: Intent, id: string) {
    i.id == id && i.status == Confirmed
  }

  /** Exactly one Intent of the graph's id is confirmed, and it is the version that the graph is bound to. */
  ghost predicate OneConfirmed(intents: seq<Intent>, id: string, version: int) {
    exists k: nat :: k < |intents| && intents[k].version == version
      && forall i :: 0 <= i < |intents| ==> (SeemsCurrent(intents[i], id) <==> i == k)
  }

  ghost predicate Points(t: Task, a: Attempt) {
    t.activeAttempt == Some(a.id) && a.task == t.AsRef()
  }

  /** Exactly one Attempt is the one that the Task points to, and it is in flight. */
  ghost predicate OneInFlight(attempts: seq<Attempt>, t: Task) {
    exists k: nat :: k < |attempts| && attempts[k].status in {Created, Leased, AttemptRunning, AttemptWaiting, Submitted}
      && forall i :: 0 <= i < |attempts| ==> (Points(t, attempts[i]) <==> i == k)
  }

  lemma {:induction false} ConfirmedCount(intents: seq<Intent>, id: string)
    ensures |ConfirmedOf(intents, id)| == Count(intents, i => SeemsCurrent(i, id))
    ensures forall i :: i in ConfirmedOf(intents, id) <==> i in intents && SeemsCurrent(i, id)
    decreases |intents|
  {
    if intents != [] { ConfirmedCount(intents[1..], id); }
  }

  lemma {:induction false} ConfirmedIff(intents: seq<Intent>, id: string, version: int)
    ensures |ConfirmedOf(intents, id)| == 1 && ConfirmedOf(intents, id)[0].version == version <==> OneConfirmed(intents, id, version)
  {
    var p := (i: Intent) => SeemsCurrent(i, id);
    ConfirmedCount(intents, id);
    CountOneIff(intents, p);
    if |ConfirmedOf(intents, id)| == 1 {
      var c := ConfirmedOf(intents, id)[0];
      assert c in ConfirmedOf(intents, id);
      var k: nat :| OnlyAt(intents, p, k);
      var j :| 0 <= j < |intents| && intents[j] == c;
      assert p(intents[j]);
    }
    if k: nat :| k < |intents| && intents[k].version == version && forall i :: 0 <= i < |intents| ==> (SeemsCurrent(intents[i], id) <==> i == k) {
      assert OnlyAt(intents, p, k);
    }
  }

  lemma {:induction false} MatchingCount(attempts: seq<Attempt>, t: Task)
    requires t.activeAttempt.Some?
    ensures |Matching(attempts, t.activeAttempt.value, t.AsRef())| == Count(attempts, a => Points(t, a))
    decreases |attempts|
  {
    if attempts != [] { MatchingCount(attempts[1..], t); }
  }

  lemma {:induction false} InFlightIff(attempts: seq<Attempt>, t: Task)
    requires t.activeAttempt.Some?
    ensures CancellationPlan(attempts, t).Ok? <==> OneInFlight(attempts, t)
  {
    var p, matches := (a: Attempt) => Points(t, a), Matching(attempts, t.activeAttempt.value, t.AsRef());
    MatchingCount(attempts, t);
    CountOneIff(attempts, p);
    if |matches| == 1 {
      assert matches[0] in matches;
      var k: nat :| OnlyAt(attempts, p, k);
      var j :| 0 <= j < |attempts| && attempts[j] == matches[0];
      assert p(attempts[j]);
    }
    if k: nat :| k < |attempts| && attempts[k].status in {Created, Leased, AttemptRunning, AttemptWaiting, Submitted}
                 && forall i :: 0 <= i < |attempts| ==> (Points(t, attempts[i]) <==> i == k) {
      assert OnlyAt(attempts, p, k);
    }
  }

  ghost predicate Cancellable(attempts: seq<Attempt>, m: Item, replaced: set<Ref>) {
    m.TaskItem? && m.AsRef() in replaced && m.task.activeAttempt.Some? ==> OneInFlight(attempts, m.task)
  }

  lemma {:induction false} CancellableHead(attempts: seq<Attempt>, live: seq<Item>, replaced: set<Ref>)
    requires live != []
    ensures CancellationPlans(attempts, live, replaced).Ok? <==>
      Cancellable(attempts, live[0], replaced) && CancellationPlans(attempts, live[1..], replaced).Ok?
  {
    if live[0].TaskItem? && live[0].AsRef() in replaced && live[0].task.activeAttempt.Some? { InFlightIff(attempts, live[0].task); }
  }

  lemma {:induction false} CancellableIff(attempts: seq<Attempt>, live: seq<Item>, replaced: set<Ref>)
    ensures CancellationPlans(attempts, live, replaced).Ok? <==> forall m :: m in live ==> Cancellable(attempts, m, replaced)
    decreases |live|
  {
    if live != [] {
      assert live == [live[0]] + live[1..];
      CancellableHead(attempts, live, replaced);
      CancellableIff(attempts, live[1..], replaced);
    }
  }

  lemma {:induction false} PlanForIff(s: State, prior: Intent, intent: Intent, proofs: map<Ref, Proof>)
    requires Shaped(s.graph)
    ensures var live := LiveItems(s.graph);
      PlanFor(s, prior, intent, LiveTasks(s.graph), LiveGroups(s.graph), proofs).Ok? <==>
      forall m :: m in LiveTasks(s.graph) ==> Cancellable(s.attempts, m, ReplacedSet(live, proofs, intent))
  {
    var live := LiveItems(s.graph);
    RetainedHaveProofs(live, proofs, intent);
    DecisionsSucceed(s.graph, live, ReplacedSet(live, proofs, intent), proofs);
    CancellableIff(s.attempts, LiveTasks(s.graph), ReplacedSet(live, proofs, intent));
  }

  /** Every live Task that is not kept and is being attempted can be cancelled. */
  ghost predicate AllCancellable(s: State, intent: Intent, reuse: seq<Proof>)
    requires Shaped(s.graph)
  {
    forall t: Task :: TaskItem(t) in LiveItems(s.graph) && !Kept(LiveItems(s.graph), reuse, intent, TaskItem(t)) && t.activeAttempt.Some? ==>
      OneInFlight(s.attempts, t)
  }

  lemma {:induction false} CancellableMeans(s: State, intent: Intent, reuse: seq<Proof>, proofs: map<Ref, Proof>)
    requires Shaped(s.graph) && ProofIndex(reuse) == Some(proofs)
    ensures (forall m :: m in LiveTasks(s.graph) ==> Cancellable(s.attempts, m, ReplacedSet(LiveItems(s.graph), proofs, intent)))
            <==> AllCancellable(s, intent, reuse)
  {
    var live := LiveItems(s.graph);
    assert live == LiveTasks(s.graph) + LiveGroups(s.graph);
    forall m | m in live ensures m.AsRef() in ReplacedSet(live, proofs, intent) <==> !Kept(live, reuse, intent, m) {
      LiveRefUnique(s.graph, m);
      ReplacedIff(live, reuse, proofs, intent, m);
    }
    forall m | m in LiveGroups(s.graph) ensures m.GroupItem? { assert m in GroupItems(s.graph.groups); }
  }

  /** A rebase of a well-shaped graph can be planned exactly when the graph is bound to the one confirmed version of
      its Intent, the new version is new, no two proofs have the same target, and each Task at work that is not
      kept points to exactly one Attempt, which is in flight. */
  lemma {:induction false} PlannedIff(s: State, intent: Intent, reuse: seq<Proof>)
    requires Shaped(s.graph)
    ensures PlanRebase(s, intent, reuse).Ok? <==>
      && OneConfirmed(s.intents, s.graph.intentId, s.graph.intentVersion)
      && (forall i :: i in s.intents ==> i.id != intent.id || i.version != intent.version)
      && DistinctTargets(reuse)
      && AllCancellable(s, intent, reuse)
  {
    var g := s.graph;
    ConfirmedIff(s.intents, g.intentId, g.intentVersion);
    ActiveItemsNamed(TaskItems(g.tasks), g.activeTasks);
    ActiveItemsNamed(GroupItems(g.groups), g.activeGroups);
    IndexIff(reuse);
    VersionsIff(s.intents, intent);
    if ProofIndex(reuse).Some? {
      CancellableMeans(s, intent, reuse, ProofIndex(reuse).value);
      var prior := ConfirmedOf(s.intents, g.intentId);
      if |prior| == 1 { PlanForIff(s, prior[0], intent, ProofIndex(reuse).value); }
    }
  }

  lemma {:induction false} VersionsIff(intents: seq<Intent>, intent: Intent)
    ensures (exists i :: 0 <= i < |intents| && intents[i].id == intent.id && intents[i].version == intent.version)
            <==> !forall i :: i in intents ==> i.id != intent.id || i.version != intent.version
  {
  }

  // ---------------------------------------------------------------- the lists afterwards

  /** A listed Task afterwards: untouched if it was not live, retained if it is kept, and otherwise invalidated,
      which cancels it if it had not ended. */
  ghost predicate TaskSettles(live: seq<Item>, reuse: seq<Proof>, intent: Intent, t: Task, t': Task) {
    if TaskItem(t) !in live then t' == t
    else if Kept(live, reuse, intent, TaskItem(t)) then t' == t.(bindingState := Retained)
    else if t.status in {Completed, Failed, Cancelled} then t' == t.(bindingState := Invalidated)
    else t' == t.(bindingState := Invalidated, status := Cancelled, activeAttempt := None, failure := t'.failure) && t'.failure.Some?
  }

  ghost predicate GroupSettles(live: seq<Item>, reuse: seq<Proof>, intent: Intent, p: Group, p': Group) {
    if GroupItem(p) !in live then p' == p
    else if Kept(live, reuse, intent, GroupItem(p)) then p' == p.(bindingState := Retained)
    else
      p' == p.(bindingState := Invalidated, winner := None, verification := None,
               status := if p.status in {Pending, Running, Verifying} then Cancelled else p.status)
  }

  lemma {:induction false} LiveOrNot(g: Graph, m: Item)
    requires Shaped(g) && m in AllItems(g)
    ensures m in LiveItems(g) <==> m.AsRef() in RefsOf(LiveItems(g))
  {
    var live := LiveItems(g);
    if m in live {
      var i :| 0 <= i < |live| && live[i] == m;
      assert RefsOf(live)[i] == m.AsRef();
    }
    if m.AsRef() in RefsOf(live) {
      var i :| 0 <= i < |live| && RefsOf(live)[i] == m.AsRef();
      R.UniqueAll(g);
      LookupUnique(AllItems(g), m);
      LookupUnique(AllItems(g), live[i]);
    }
  }

  /** The decision that settles a listed item. */
  lemma {:induction false} DecisionOf(s: State, intent: Intent, reuse: seq<Proof>, plan: Plan, m: Item)
    requires Shaped(s.graph) && PlanRebase(s, intent, reuse) == Ok(plan) && m in AllItems(s.graph)
    ensures var d := DecisionFor(plan.decisions, m.AsRef());
      && (m !in LiveItems(s.graph) ==> d.None?)
      && (m in LiveItems(s.graph) ==> d.Some? && (d.value.Retain? <==> Kept(LiveItems(s.graph), reuse, intent, m)))
  {
    PlanIsFromLive(s, intent, reuse, plan);
    var live, proofs := LiveItems(s.graph), ProofIndex(reuse).value;
    DecisionTargets(s, intent, proofs, plan, ReplacedSet(live, proofs, intent), m.AsRef());
    LiveOrNot(s.graph, m);
    if m in live {
      LiveRefUnique(s.graph, m);
      ReplacedIff(live, reuse, proofs, intent, m);
    }
  }

  lemma {:induction false} SettlesTask(s: State, intent: Intent, reuse: seq<Proof>, plan: Plan, t: Task)
    requires Shaped(s.graph) && PlanRebase(s, intent, reuse) == Ok(plan) && t in s.graph.tasks
    ensures TaskSettles(LiveItems(s.graph), reuse, intent, t, SettledTask(t, plan.decisions))
  {
    var k :| 0 <= k < |s.graph.tasks| && s.graph.tasks[k] == t;
    assert AllItems(s.graph)[k] == TaskItem(t);
    DecisionOf(s, intent, reuse, plan, TaskItem(t));
    match t.status
    case Completed => case Failed => case Cancelled =>
    case Pending => case Running => case Waiting => case Verifying =>
  }

  lemma {:induction false} SettlesGroup(s: State, intent: Intent, reuse: seq<Proof>, plan: Plan, p: Group)
    requires Shaped(s.graph) && PlanRebase(s, intent, reuse) == Ok(plan) && p in s.graph.groups
    ensures GroupSettles(LiveItems(s.graph), reuse, intent, p, SettledGroup(p, plan.decisions))
  {
    var k :| 0 <= k < |s.graph.groups| && s.graph.groups[k] == p;
    assert AllItems(s.graph)[|s.graph.tasks| + k] == GroupItem(p);
    DecisionOf(s, intent, reuse, plan, GroupItem(p));
  }

  lemma {:induction false} RequiredMeans(criteria: seq<Criterion>, id: string)
    ensures id in RequiredIds(criteria) <==> exists c :: c in criteria && c.required && c.id == id
    decreases |criteria|
  {
    if criteria != [] {
      assert criteria == [criteria[0]] + criteria[1..];
      RequiredMeans(criteria[1..], id);
    }
  }

  /** What the rebase makes of the graph: every listed item keeps its place and is settled by what was decided about
      it, the rest are new revisions, the graph is active, bound to the new Intent and asks for its required
      criteria, and all else is as before. */
  lemma {:induction false} RebasedLists(s: State, intent: Intent, reuse: seq<Proof>, plan: Plan)
    requires Shaped(s.graph) && PlanRebase(s, intent, reuse) == Ok(plan)
    ensures var g, g', live := s.graph, RebasedGraph(s.graph, plan), LiveItems(s.graph);
      && |g.tasks| <= |g'.tasks| && (forall i :: 0 <= i < |g.tasks| ==> TaskSettles(live, reuse, intent, g.tasks[i], g'.tasks[i]))
      && |g.groups| <= |g'.groups| && (forall i :: 0 <= i < |g.groups| ==> GroupSettles(live, reuse, intent, g.groups[i], g'.groups[i]))
    ensures var g, g' := s.graph, RebasedGraph(s.graph, plan);
      && g'.id == g.id && g'.limits == g.limits && g'.replanCount == g.replanCount && g'.revision == g.revision + 1
      && g'.status == Active && g'.intentId == intent.id && g'.intentVersion == intent.version
      && forall id :: id in g'.requiredCriteria <==> exists c :: c in intent.criteria && c.required && c.id == id
  {
    var g, g' := s.graph, RebasedGraph(s.graph, plan);
    PlanIsFromLive(s, intent, reuse, plan);
    forall i | 0 <= i < |g.tasks| ensures TaskSettles(LiveItems(g), reuse, intent, g.tasks[i], g'.tasks[i]) { SettlesTask(s, intent, reuse, plan, g.tasks[i]); }
    forall i | 0 <= i < |g.groups| ensures GroupSettles(LiveItems(g), reuse, intent, g.groups[i], g'.groups[i]) { SettlesGroup(s, intent, reuse, plan, g.groups[i]); }
    forall id ensures id in g'.requiredCriteria <==> exists c :: c in intent.criteria && c.required && c.id == id { RequiredMeans(intent.criteria, id); }
  }

  /** A plan is refused, without a look at the graph, exactly when the state or its graph has moved on. */
  lemma {:induction false} StalePlanIff(s: State, plan: Plan, ids: seq<string>)
    requires |ids| == |plan.cancellations|
    ensures ApplyRebase(s, plan, ids) == Err(None) <==> s.revision != plan.expectedRoot || s.graph.revision != plan.expectedGraph
  {
  }
}
