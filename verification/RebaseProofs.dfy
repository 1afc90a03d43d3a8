/** What a rebase plan decides: retained work carries an exact proof and depends on nothing invalidated, and
    exactly the Attempts of invalidated Tasks are cancelled. */
module RebaseProofs {
  import opened Core
  import opened Items
  import opened Attempts
  import opened Closure
  import opened Validation
  import opened Rebase

  ghost function LiveTasks(g: Graph): seq<Item>
    requires Shaped(g)
  {
    Named(TaskItems(g.tasks), g.activeTasks)
  }

  ghost function LiveGroups(g: Graph): seq<Item>
    requires Shaped(g)
  {
    Named(GroupItems(g.groups), g.activeGroups)
  }

  lemma {:induction false} ActiveItemsNamed(items: seq<Item>, refs: seq<Ref>)
    requires UniqueRefs(items) && forall i :: 0 <= i < |refs| ==> HasRef(items, refs[i])
    ensures ActiveItems(items, refs) == Some(Named(items, refs))
    decreases |refs|
  {
    if refs != [] {
      assert HasRef(items, refs[0]);
      FindInUnique(items, refs[0]);
      forall i | 0 <= i < |refs[1..]| ensures HasRef(items, refs[1..][i]) { assert refs[1..][i] == refs[i + 1]; }
      ActiveItemsNamed(items, refs[1..]);
      assert Named(items, refs) == [Lookup(items, refs[0])] + Named(items, refs[1..]);
    }
  }

  ghost predicate PlannedWith(s: State, intent: Intent, proofs: map<Ref, Proof>, plan: Plan)
    requires Shaped(s.graph)
  {
    var g := s.graph;
    var replaced := ReplacedSet(LiveItems(g), proofs, intent);
    && plan.expectedRoot == s.revision && plan.expectedGraph == g.revision && plan.newIntent == intent
    && DecideAll(g, replaced, LiveItems(g), proofs) == Some(plan.decisions)
    && CancellationPlans(s.attempts, LiveTasks(g), replaced) == Ok(plan.cancellations)
    && plan.appendedTasks == ReplacedTasks(g, replaced, LiveTasks(g), intent)
    && plan.appendedGroups == ReplacedGroups(g, replaced, LiveGroups(g), intent)
    && plan.activeTasks == RenamedAll(g, replaced, g.activeTasks)
    && plan.activeGroups == RenamedAll(g, replaced, g.activeGroups)
  }

  /** On a well-shaped graph the plan is made from the live items. */
  lemma {:induction false} PlanIsFromLive(s: State, intent: Intent, reuse: seq<Proof>, plan: Plan)
    requires Shaped(s.graph) && PlanRebase(s, intent, reuse) == Ok(plan)
    ensures ProofIndex(reuse).Some? && PlannedWith(s, intent, ProofIndex(reuse).value, plan)
  {
    var g := s.graph;
    ActiveItemsNamed(TaskItems(g.tasks), g.activeTasks);
    ActiveItemsNamed(GroupItems(g.groups), g.activeGroups);
  }

  // ---------------------------------------------------------------- retained work

  /** Retained: neither replaced itself nor depending on anything replaced, and exactly proven. */
  lemma {:induction false} RetainedIsProven(live: seq<Item>, proofs: map<Ref, Proof>, intent: Intent, m: Item)
    requires m in live && m.AsRef() !in ReplacedSet(live, proofs, intent)
    ensures HasExactProof(m, proofs, intent)
    ensures forall d :: d in m.Mentions() ==> d !in ReplacedSet(live, proofs, intent)
  {
    var initial := InitialReplacements(live, proofs, intent);
    var replaced := Close(live, initial);
    CloseIsLeast(live, initial);
    var i :| 0 <= i < |live| && live[i] == m;
    assert m.AsRef() !in initial;
    assert !MentionsAny(live[i], replaced);
  }

  /** Nothing is invalidated beyond need: every dependents-closed set that contains the pending and the
      unproven items contains all that is replaced. */
  lemma {:induction false} ReplacedIsLeast(live: seq<Item>, proofs: map<Ref, Proof>, intent: Intent, bound: set<Ref>)
    requires ClosedUnder(live, bound)
    requires forall m :: m in live && (m.Status() == Pending || !HasExactProof(m, proofs, intent)) ==> m.AsRef() in bound
    ensures ReplacedSet(live, proofs, intent) <= bound
  {
    CloseIsLeast(live, InitialReplacements(live, proofs, intent));
    assert InitialReplacements(live, proofs, intent) <= bound;
  }

  lemma {:induction false} ReplacedAreLive(live: seq<Item>, proofs: map<Ref, Proof>, intent: Intent)
    ensures forall r :: r in ReplacedSet(live, proofs, intent) ==> r in RefsOf(live)
  {
    var initial := InitialReplacements(live, proofs, intent);
    CloseIsLeast(live, initial);
    forall r | r in initial ensures r in RefsOf(live) {
      var i :| 0 <= i < |live| && r == live[i].AsRef();
      assert RefsOf(live)[i] == r;
    }
  }

  /** The proof lookup behind a retained decision cannot fail. */
  lemma {:induction false} DecisionsSucceed(g: Graph, live: seq<Item>, replaced: set<Ref>, proofs: map<Ref, Proof>)
    requires forall m :: m in live && m.AsRef() !in replaced ==> m.AsRef() in proofs
    ensures DecideAll(g, replaced, live, proofs).Some?
    ensures var decisions := DecideAll(g, replaced, live, proofs).value;
      |decisions| == |live| && forall i :: 0 <= i < |live| ==> Decide(g, replaced, live[i], proofs) == Some(decisions[i])
    decreases |live|
  {
    if live != [] {
      assert live[0] in live;
      DecisionsSucceed(g, live[1..], replaced, proofs);
    }
  }

  lemma {:induction false} RetainedHaveProofs(live: seq<Item>, proofs: map<Ref, Proof>, intent: Intent)
    ensures forall m :: m in live && m.AsRef() !in ReplacedSet(live, proofs, intent) ==> m.AsRef() in proofs
  {
    forall m | m in live && m.AsRef() !in ReplacedSet(live, proofs, intent) ensures m.AsRef() in proofs {
      RetainedIsProven(live, proofs, intent, m);
    }
  }

  lemma {:induction false} ProofLookupNeverFails(s: State, intent: Intent, reuse: seq<Proof>)
    ensures PlanRebase(s, intent, reuse) != Err(MissingProof)
  {
    var g := s.graph;
    var tasks, groups := ActiveItems(TaskItems(g.tasks), g.activeTasks), ActiveItems(GroupItems(g.groups), g.activeGroups);
    var proofs := ProofIndex(reuse);
    if tasks.Some? && groups.Some? && proofs.Some? {
      var live := tasks.value + groups.value;
      RetainedHaveProofs(live, proofs.value, intent);
      DecisionsSucceed(g, live, ReplacedSet(live, proofs.value, intent), proofs.value);
      NoMissingProofHere(s.attempts, tasks.value, ReplacedSet(live, proofs.value, intent));
    }
  }

  lemma {:induction false} NoMissingProofHere(attempts: seq<Attempt>, live: seq<Item>, replaced: set<Ref>)
    ensures CancellationPlans(attempts, live, replaced) != Err(MissingProof)
    decreases |live|
  {
    if live != [] { NoMissingProofHere(attempts, live[1..], replaced); }
  }

  // ---------------------------------------------------------------- cancellations

  /** `c` cancels the one Attempt in flight that an invalidated Task points to, under its exact lease. */
  ghost predicate Cancels(attempts: seq<Attempt>, t: Task, c: PlannedCancellation) {
    exists a :: a in attempts && t.activeAttempt == Some(a.id) && a.task == t.AsRef() && InFlight(a.status)
                && c == PlannedCancellation(a.id, t.AsRef(), a.lease.epoch, a.lease.token)
  }

  lemma {:induction false} OneCancellation(attempts: seq<Attempt>, t: Task)
    requires CancellationPlan(attempts, t).Ok?
    ensures var c := CancellationPlan(attempts, t).value;
      (c.None? <==> t.activeAttempt.None?) && (c.Some? ==> Cancels(attempts, t, c.value))
    ensures forall c :: Cancels(attempts, t, c) ==> CancellationPlan(attempts, t) == Ok(Some(c))
  {
  }

  ghost predicate CancelsOneOf(attempts: seq<Attempt>, live: seq<Item>, replaced: set<Ref>, c: PlannedCancellation) {
    exists t :: TaskItem(t) in live && t.AsRef() in replaced && Cancels(attempts, t, c)
  }

  /** Cancellations are exactly those of the invalidated Tasks with an active Attempt. */
  lemma {:induction false} CancellationsExact(attempts: seq<Attempt>, live: seq<Item>, replaced: set<Ref>)
    requires CancellationPlans(attempts, live, replaced).Ok?
    ensures forall c :: c in CancellationPlans(attempts, live, replaced).value <==> CancelsOneOf(attempts, live, replaced, c)
    decreases |live|
  {
    if live != [] {
      if live[0].TaskItem? && live[0].AsRef() in replaced { OneCancellation(attempts, live[0].task); }
      CancellationsExact(attempts, live[1..], replaced);
      forall c ensures c in CancellationPlans(attempts, live, replaced).value <==> CancelsOneOf(attempts, live, replaced, c) {
        OneMoreCancellation(attempts, live, replaced, c);
      }
    }
  }

  /** No invalidated Task keeps running unnoticed. */
  lemma {:induction false} EveryAttemptCancelled(attempts: seq<Attempt>, live: seq<Item>, replaced: set<Ref>, t: Task)
    requires CancellationPlans(attempts, live, replaced).Ok?
    requires TaskItem(t) in live && t.AsRef() in replaced && t.activeAttempt.Some?
    ensures exists c :: c in CancellationPlans(attempts, live, replaced).value && Cancels(attempts, t, c)
    decreases |live|
  {
    assert live == [live[0]] + live[1..];
    if TaskItem(t) == live[0] {
      OneCancellation(attempts, t);
      var c := CancellationPlan(attempts, t).value.value;
      assert c in CancellationPlans(attempts, live, replaced).value;
    } else {
      EveryAttemptCancelled(attempts, live[1..], replaced, t);
      var c :| c in CancellationPlans(attempts, live[1..], replaced).value && Cancels(attempts, t, c);
      assert c in CancellationPlans(attempts, live, replaced).value;
    }
  }

  lemma {:induction false} OneMoreCancellation(attempts: seq<Attempt>, live: seq<Item>, replaced: set<Ref>, c: PlannedCancellation)
    requires live != []
    ensures CancelsOneOf(attempts, live, replaced, c) <==>
      || (live[0].TaskItem? && live[0].AsRef() in replaced && Cancels(attempts, live[0].task, c))
      || CancelsOneOf(attempts, live[1..], replaced, c)
  {
  }
}
