/** Planning an Intent rebase (`plan_intent_rebase`) and applying the plan to the graph and its Attempts. */
module Rebase {
  import opened Core
  import opened Items
  import opened Text
  import opened Attempts
  import opened Closure
  import V = Validation

  datatype IntentStatus = Draft | Confirmed | SupersededIntent

  datatype Criterion = Criterion(id: string, required: bool)

  /** `fingerprint` stands for the digest of the other fields of the source's Intent. */
  datatype Intent = Intent(id: string, version: int, status: IntentStatus, criteria: seq<Criterion>, fingerprint: string)

  /** A verifier's statement that one exact item may be reused under one exact new Intent. */
  datatype Proof = Proof(
    recordId: string, target: Ref, passed: bool, reusable: bool, priorVersion: int, newVersion: int, newFingerprint: string,
    bindingHash: string, dependencies: seq<Ref>, contract: Contract, validatorFingerprint: string)

  datatype Decision = Retain(target: Ref, proofId: string) | Invalidate(target: Ref, replacement: Ref)

  datatype PlannedCancellation = PlannedCancellation(attemptId: string, task: Ref, epoch: int, token: string)

  datatype State = State(revision: int, intents: seq<Intent>, graph: Graph, attempts: seq<Attempt>, locks: seq<Lock>, cancellations: seq<Cancellation>)

  datatype Plan = Plan(
    expectedRoot: int, expectedGraph: int, prior: Intent, newIntent: Intent,
    appendedTasks: seq<Task>, appendedGroups: seq<Group>, activeTasks: seq<Ref>, activeGroups: seq<Ref>,
    decisions: seq<Decision>, cancellations: seq<PlannedCancellation>)

  datatype RebaseError = NoConfirmedIntent | VersionExists | MissingActive | DuplicateProof | NoExactAttempt | TerminalAttempt | MissingProof

  // ---------------------------------------------------------------- proofs

  function IntentVersionOf(m: Item): int {
    match m case TaskItem(t) => t.intentVersion case GroupItem(g) => g.intentVersion
  }

  function BindingHashOf(m: Item): string {
    match m case TaskItem(t) => t.intentBindingHash case GroupItem(g) => g.intentBindingHash
  }

  function ContractOf(m: Item): Contract {
    match m case TaskItem(t) => t.contract case GroupItem(g) => g.contract
  }

  predicate Proves(p: Proof, m: Item, intent: Intent) {
    && p.passed && p.reusable
    && p.target == m.AsRef() && p.priorVersion == IntentVersionOf(m) && p.newVersion == intent.version
    && p.newFingerprint == intent.fingerprint && p.bindingHash == BindingHashOf(m) && p.dependencies == m.Mentions()
    && p.contract == ContractOf(m) && !Blank(p.validatorFingerprint)
  }

  predicate HasExactProof(m: Item, proofs: map<Ref, Proof>, intent: Intent) {
    m.Status() !in {Failed, Cancelled, Pending} && m.AsRef() in proofs && Proves(proofs[m.AsRef()], m, intent)
  }

  function ProofIndex(proofs: seq<Proof>): Option<map<Ref, Proof>>
    ensures ProofIndex(proofs).Some? ==> forall k :: k in ProofIndex(proofs).value ==> ProofIndex(proofs).value[k] in proofs
  {
    if proofs == [] then Some(map[])
    else
      var last := proofs[|proofs| - 1];
      match ProofIndex(proofs[..|proofs| - 1])
      case None => None
      case Some(index) => if last.target in index then None else Some(index[last.target := last])
  }

  // ---------------------------------------------------------------- what is replaced, and by what

  function InitialReplacements(live: seq<Item>, proofs: map<Ref, Proof>, intent: Intent): set<Ref> {
    set i | 0 <= i < |live| && (live[i].Status() == Pending || !HasExactProof(live[i], proofs, intent)) :: live[i].AsRef()
  }

  /** The greatest listed revision of a logical id, at least 0. */
  function NewestRevision(items: seq<Item>, id: LogicalId): (n: int)
    ensures n >= 0 && forall m :: m in items && m.AsRef().Logical() == id ==> m.AsRef().revision <= n
    decreases |items|
  {
    if items == [] then 0
    else
      var last := items[|items| - 1];
      var before := NewestRevision(items[..|items| - 1], id);
      assert items == items[..|items| - 1] + [last];
      if last.AsRef().Logical() == id then Max(before, last.AsRef().revision) else before
  }

  function FreshRef(g: Graph, ref: Ref): Ref {
    ref.(revision := NewestRevision(V.AllItems(g), ref.Logical()) + 1)
  }

  /** New references for the replaced items; any other reference stands for itself. */
  function Renamed(g: Graph, replaced: set<Ref>, ref: Ref): Ref {
    if ref in replaced then FreshRef(g, ref) else ref
  }

  function RenamedAll(g: Graph, replaced: set<Ref>, refs: seq<Ref>): (r: seq<Ref>) {
    seq(|refs|, i requires 0 <= i < |refs| => Renamed(g, replaced, refs[i]))
  }

  function RenamedChildren(g: Graph, replaced: set<Ref>, children: seq<Child>): (r: seq<Child>) {
    seq(|children|, i requires 0 <= i < |children| => Child(Renamed(g, replaced, children[i].task), children[i].required))
  }

  function ReplacementTask(g: Graph, replaced: set<Ref>, t: Task, intent: Intent): Task {
    t.(revision := FreshRef(g, t.AsRef()).revision, intentVersion := intent.version, intentBindingHash := intent.fingerprint,
       bindingState := Current, dependsOn := RenamedAll(g, replaced, t.dependsOn),
       status := Pending, activeAttempt := None, outputs := [], failure := None)
  }

  function ReplacementGroup(g: Graph, replaced: set<Ref>, group: Group, intent: Intent): Group {
    group.(revision := FreshRef(g, group.AsRef()).revision, intentVersion := intent.version, intentBindingHash := intent.fingerprint,
           bindingState := Current, dependsOn := RenamedAll(g, replaced, group.dependsOn),
           children := RenamedChildren(g, replaced, group.children),
           status := Pending, winner := None, verification := None)
  }

  function Replacement(g: Graph, replaced: set<Ref>, m: Item, intent: Intent): Item {
    match m
    case TaskItem(t) => TaskItem(ReplacementTask(g, replaced, t, intent))
    case GroupItem(group) => GroupItem(ReplacementGroup(g, replaced, group, intent))
  }

  function ReplacedTasks(g: Graph, replaced: set<Ref>, live: seq<Item>, intent: Intent): seq<Task> {
    if live == [] then []
    else
      var rest := ReplacedTasks(g, replaced, live[1..], intent);
      if live[0].TaskItem? && live[0].AsRef() in replaced then [ReplacementTask(g, replaced, live[0].task, intent)] + rest else rest
  }

  function ReplacedGroups(g: Graph, replaced: set<Ref>, live: seq<Item>, intent: Intent): seq<Group> {
    if live == [] then []
    else
      var rest := ReplacedGroups(g, replaced, live[1..], intent);
      if live[0].GroupItem? && live[0].AsRef() in replaced then [ReplacementGroup(g, replaced, live[0].group, intent)] + rest else rest
  }

  /** The source's loops over the Tasks and the Groups. */
  method CollectInitialReplacements(live: seq<Item>, proofs: map<Ref, Proof>, intent: Intent) returns (replacements: set<Ref>)
    ensures replacements == InitialReplacements(live, proofs, intent)
  {
    replacements := {};
    for i := 0 to |live|
      invariant replacements == set j | 0 <= j < i && (live[j].Status() == Pending || !HasExactProof(live[j], proofs, intent)) :: live[j].AsRef()
    {
      if live[i].Status() == Pending || !HasExactProof(live[i], proofs, intent) { replacements := replacements + {live[i].AsRef()}; }
    }
  }

  predicate ListsId(items: seq<Item>, id: LogicalId) {
    exists i :: 0 <= i < |items| && items[i].AsRef().Logical() == id
  }

  /** Fills one dictionary with the newest revisions and another with the fresh references. */
  method ReplacementRefs(g: Graph, replaced: set<Ref>) returns (result: map<Ref, Ref>)
    requires forall r :: r in replaced ==> ListsId(V.AllItems(g), r.Logical())
    ensures result.Keys == replaced && forall r :: r in replaced ==> result[r] == FreshRef(g, r)
  {
    var newest := NewestRevisions(V.AllItems(g));
    result := map[];
    var left := replaced;
    while left != {}
      invariant left <= replaced && result.Keys == replaced - left
      invariant forall r :: r in result ==> result[r] == FreshRef(g, r)
    {
      var r :| r in left;
      result := result[r := r.(revision := newest[r.Logical()] + 1)];
      left := left - {r};
    }
  }

  method NewestRevisions(items: seq<Item>) returns (newest: map<LogicalId, int>)
    ensures forall id :: ListsId(items, id) ==> id in newest && newest[id] == NewestRevision(items, id)
  {
    newest := map[];
    for i := 0 to |items|
      invariant forall id :: id in newest <==> ListsId(items[..i], id)
      invariant forall id :: id in newest ==> newest[id] == NewestRevision(items[..i], id)
      invariant forall id :: id !in newest ==> NewestRevision(items[..i], id) == 0
    {
      var ref := items[i].AsRef();
      NewestOfOneMore(items, i);
      newest := newest[ref.Logical() := Max(if ref.Logical() in newest then newest[ref.Logical()] else 0, ref.revision)];
    }
    assert items[..|items|] == items;
  }

  lemma {:induction false} NewestOfOneMore(items: seq<Item>, i: nat)
    requires i < |items|
    ensures forall id :: NewestRevision(items[..i + 1], id) ==
                         if items[i].AsRef().Logical() == id then Max(NewestRevision(items[..i], id), items[i].AsRef().revision)
                         else NewestRevision(items[..i], id)
    ensures forall id :: ListsId(items[..i + 1], id) <==> ListsId(items[..i], id) || items[i].AsRef().Logical() == id
  {
    var more := items[..i + 1];
    assert more[..i] == items[..i] && more[i] == items[i];
    forall id ensures ListsId(more, id) <==> ListsId(items[..i], id) || items[i].AsRef().Logical() == id {
      if ListsId(items[..i], id) {
        var k :| 0 <= k < i && items[..i][k].AsRef().Logical() == id;
        assert more[k] == items[k];
      }
      if items[i].AsRef().Logical() == id { assert more[i].AsRef().Logical() == id; }
      if ListsId(more, id) {
        var k :| 0 <= k < i + 1 && more[k].AsRef().Logical() == id;
        if k < i { assert items[..i][k] == more[k]; }
      }
    }
  }

  // ---------------------------------------------------------------- decisions and cancellations

  /** None stands for the `KeyError` of the source's proof lookup. */
  function Decide(g: Graph, replaced: set<Ref>, m: Item, proofs: map<Ref, Proof>): Option<Decision> {
    if m.AsRef() in replaced then Some(Invalidate(m.AsRef(), FreshRef(g, m.AsRef())))
    else if m.AsRef() in proofs then Some(Retain(m.AsRef(), proofs[m.AsRef()].recordId))
    else None
  }

  function DecideAll(g: Graph, replaced: set<Ref>, live: seq<Item>, proofs: map<Ref, Proof>): Option<seq<Decision>> {
    if live == [] then Some([])
    else
      match Decide(g, replaced, live[0], proofs)
      case None => None
      case Some(d) =>
        match DecideAll(g, replaced, live[1..], proofs)
        case None => None
        case Some(rest) => Some([d] + rest)
  }

  function Matching(attempts: seq<Attempt>, id: string, task: Ref): (r: seq<Attempt>)
    ensures forall a :: a in r <==> a in attempts && a.id == id && a.task == task
  {
    if attempts == [] then []
    else (if attempts[0].id == id && attempts[0].task == task then [attempts[0]] else []) + Matching(attempts[1..], id, task)
  }

  /** Ok(None) when the Task has no Attempt to cancel. */
  function CancellationPlan(attempts: seq<Attempt>, t: Task): Result<Option<PlannedCancellation>, RebaseError> {
    if t.activeAttempt.None? then Ok(None)
    else
      var matches := Matching(attempts, t.activeAttempt.value, t.AsRef());
      if |matches| != 1 then Err(NoExactAttempt)
      else if !InFlight(matches[0].status) then Err(TerminalAttempt)
      else Ok(Some(PlannedCancellation(matches[0].id, t.AsRef(), matches[0].lease.epoch, matches[0].lease.token)))
  }

  function CancellationPlans(attempts: seq<Attempt>, live: seq<Item>, replaced: set<Ref>): Result<seq<PlannedCancellation>, RebaseError> {
    if live == [] then Ok([])
    else
      var rest := CancellationPlans(attempts, live[1..], replaced);
      if live[0].TaskItem? && live[0].AsRef() in replaced then
        match CancellationPlan(attempts, live[0].task)
        case Err(e) => Err(e)
        case Ok(None) => rest
        case Ok(Some(c)) => if rest.Err? then rest else Ok([c] + rest.value)
      else rest
  }

  // ---------------------------------------------------------------- the plan

  function ConfirmedOf(intents: seq<Intent>, id: string): seq<Intent> {
    if intents == [] then []
    else (if intents[0].id == id && intents[0].status == Confirmed then [intents[0]] else []) + ConfirmedOf(intents[1..], id)
  }

  function ActiveItems(items: seq<Item>, refs: seq<Ref>): Option<seq<Item>> {
    if refs == [] then Some([])
    else
      match (FindItem(items, refs[0]), ActiveItems(items, refs[1..]))
      case (Some(m), Some(rest)) => Some([m] + rest)
      case _ => None
  }

  /** The Intent patch has been classified as material and confirmed before. */
  function PlanRebase(s: State, intent: Intent, reuse: seq<Proof>): Result<Plan, RebaseError> {
    var g := s.graph;
    var prior := ConfirmedOf(s.intents, g.intentId);
    if |prior| != 1 || prior[0].version != g.intentVersion then Err(NoConfirmedIntent)
    else if exists i :: 0 <= i < |s.intents| && s.intents[i].id == intent.id && s.intents[i].version == intent.version then Err(VersionExists)
    else
      match (ActiveItems(TaskItems(g.tasks), g.activeTasks), ActiveItems(GroupItems(g.groups), g.activeGroups))
      case (Some(tasks), Some(groups)) =>
        (match ProofIndex(reuse)
         case None => Err(DuplicateProof)
         case Some(proofs) => PlanFor(s, prior[0], intent, tasks, groups, proofs))
      case _ => Err(MissingActive)
  }

  function ReplacedSet(live: seq<Item>, proofs: map<Ref, Proof>, intent: Intent): set<Ref> {
    Close(live, InitialReplacements(live, proofs, intent))
  }

  function PlanFor(s: State, prior: Intent, intent: Intent, tasks: seq<Item>, groups: seq<Item>, proofs: map<Ref, Proof>): Result<Plan, RebaseError> {
    var g, live := s.graph, tasks + groups;
    var replaced := ReplacedSet(live, proofs, intent);
    match DecideAll(g, replaced, live, proofs)
    case None => Err(MissingProof)
    case Some(decisions) =>
      match CancellationPlans(s.attempts, tasks, replaced)
      case Err(e) => Err(e)
      case Ok(cancellations) =>
        Ok(Plan(s.revision, g.revision, prior, intent,
                ReplacedTasks(g, replaced, tasks, intent), ReplacedGroups(g, replaced, groups, intent),
                RenamedAll(g, replaced, RefsOf(tasks)), RenamedAll(g, replaced, RefsOf(groups)), decisions, cancellations))
  }

  // ---------------------------------------------------------------- applying the plan

  /** The last decision about a reference, as the source's dictionary keeps it. */
  function DecisionFor(decisions: seq<Decision>, ref: Ref): (o: Option<Decision>)
    ensures o.Some? ==> o.value in decisions && o.value.target == ref
    ensures o.None? ==> forall d :: d in decisions ==> d.target != ref
  {
    if decisions == [] then None
    else
      var last := decisions[|decisions| - 1];
      if last.target == ref then Some(last) else DecisionFor(decisions[..|decisions| - 1], ref)
  }

  function SettledTask(t: Task, decisions: seq<Decision>): Task {
    match DecisionFor(decisions, t.AsRef())
    case None => t
    case Some(Retain(_, _)) => t.(bindingState := Retained)
    case Some(Invalidate(_, _)) =>
      if t.status in {Pending, Running, Waiting, Verifying} then
        t.(bindingState := Invalidated, status := Cancelled, activeAttempt := None, failure := Some("superseded by confirmed Intent rebase"))
      else t.(bindingState := Invalidated)
  }

  function SettledGroup(group: Group, decisions: seq<Decision>): Group {
    match DecisionFor(decisions, group.AsRef())
    case None => group
    case Some(Retain(_, _)) => group.(bindingState := Retained)
    case Some(Invalidate(_, _)) =>
      var open := group.(bindingState := Invalidated, winner := None, verification := None);
      if group.status in {Pending, Running, Verifying} then open.(status := Cancelled) else open
  }

  function RequiredIds(criteria: seq<Criterion>): seq<string> {
    if criteria == [] then []
    else (if criteria[0].required then [criteria[0].id] else []) + RequiredIds(criteria[1..])
  }

  function RebasedGraph(g: Graph, plan: Plan): Graph {
    g.(intentId := plan.newIntent.id, intentVersion := plan.newIntent.version, revision := g.revision + 1, status := Active,
       requiredCriteria := RequiredIds(plan.newIntent.criteria),
       tasks := seq(|g.tasks|, i requires 0 <= i < |g.tasks| => SettledTask(g.tasks[i], plan.decisions)) + plan.appendedTasks,
       groups := seq(|g.groups|, i requires 0 <= i < |g.groups| => SettledGroup(g.groups[i], plan.decisions)) + plan.appendedGroups,
       activeTasks := plan.activeTasks, activeGroups := plan.activeGroups)
  }

  predicate CancelledBy(plan: Plan, id: string) {
    exists i :: 0 <= i < |plan.cancellations| && plan.cancellations[i].attemptId == id
  }

  function RetireAttempt(a: Attempt, plan: Plan): Attempt {
    if CancelledBy(plan, a.id) then a.(status := AttemptCancelled, lease := a.lease.(retiring := true)) else a
  }

  function RetireLock(l: Lock, plan: Plan): Lock {
    if CancelledBy(plan, l.attemptId) then l.(retiring := true) else l
  }

  /** The source checks the revisions the plan was made for, and validates the graph without coverage.
      `ids` are the fresh cancellation ids. */
  function ApplyRebase(s: State, plan: Plan, ids: seq<string>): Result<State, Option<GraphError>>
    requires |ids| == |plan.cancellations|
  {
    if s.revision != plan.expectedRoot || s.graph.revision != plan.expectedGraph then Err(None)
    else
      var g' := RebasedGraph(s.graph, plan);
      var requests := seq(|ids|, i requires 0 <= i < |ids| =>
        Cancellation(ids[i], plan.cancellations[i].attemptId, plan.cancellations[i].epoch, plan.cancellations[i].token, false));
      match V.Problem(g', true)
      case Some(e) => Err(Some(e))
      case None =>
        Ok(State(s.revision,
                 seq(|s.intents|, i requires 0 <= i < |s.intents| =>
                   if s.intents[i].id == plan.prior.id && s.intents[i].version == plan.prior.version
                   then s.intents[i].(status := SupersededIntent) else s.intents[i]) + [plan.newIntent],
                 g',
                 seq(|s.attempts|, i requires 0 <= i < |s.attempts| => RetireAttempt(s.attempts[i], plan)),
                 seq(|s.locks|, i requires 0 <= i < |s.locks| => RetireLock(s.locks[i], plan)),
                 s.cancellations + requests))
  }
}
