/** Planner budgets and the assessment of proposed patches (`decide_planning_budget`,
    `validate_planner_patch`, `assess_planner_patch`): planning never exceeds its budget and always ends. */
module Planning {
  import opened Core
  import opened Text
  import opened Rewrite
  import opened Validation
  import opened Patch
  import opened Items
  import Acyclic
  import PatchConserves
  import R = Ready

  datatype Trigger = Seed | ExpandableReady | VerificationFailed | Deadlock | DiscoveredWork | GoalGap | UserChange

  function TriggerName(t: Trigger): string {
    match t
    case Seed => "seed"
    case ExpandableReady => "expandable_ready"
    case VerificationFailed => "verification_failed"
    case Deadlock => "deadlock"
    case DiscoveredWork => "discovered_work"
    case GoalGap => "goal_gap"
    case UserChange => "user_change"
  }

  datatype Budget = Budget(allowed: bool, mayRepair: bool, replansLeft: int, repairsLeft: int)

  datatype PlanningError =
    NegativeBudget | NotAPatch | TriggerMismatch | BlankReason | NoOperations | UnknownOperation | GraphRefused(error: GraphError)

  function AtLeastZero(n: int): int { if n < 0 then 0 else n }

  predicate ReplanAllowed(g: Graph, t: Trigger) {
    if t.Seed? then g.revision == 0 else g.replanCount < g.limits.maxReplans
  }

  function Decide(g: Graph, t: Trigger, repair: int, maxRepairs: int): Result<Budget, PlanningError> {
    if repair < 0 || maxRepairs < 0 then Err(NegativeBudget)
    else
      Ok(Budget(ReplanAllowed(g, t) && repair <= maxRepairs, ReplanAllowed(g, t) && repair < maxRepairs,
                AtLeastZero(g.limits.maxReplans - g.replanCount), AtLeastZero(maxRepairs - repair)))
  }

  /** What a Planner returns: a typed patch or something else. */
  datatype Proposal = Typed(patch: GraphPatch) | Untyped

  datatype Validated = Accepted(graph: Graph) | Rejected(error: PlanningError) | NotReturned

  predicate HasUnknown(ops: seq<Operation>) {
    exists i :: 0 <= i < |ops| && ops[i].op.OtherOperation?
  }

  /** `NotReturned` when a worklist run of the patch needs more than the granted rounds. */
  function ValidateProposal(g: Graph, t: Trigger, p: Proposal, rounds: nat): Validated {
    if p.Untyped? then Rejected(NotAPatch)
    else if p.patch.trigger != TriggerName(t) then Rejected(TriggerMismatch)
    else if Blank(p.patch.reason) then Rejected(BlankReason)
    else if p.patch.operations == [] then Rejected(NoOperations)
    else if HasUnknown(p.patch.operations) then Rejected(UnknownOperation)
    else
      match Apply(g, p.patch, rounds)
      case Patched(g') => Accepted(g')
      case Refused(e) => Rejected(GraphRefused(e))
      case StillRunning => NotReturned
  }

  /** The outcome of an assessment; `freshContext` asks for a new projection because the patch was stale. */
  datatype Assessment = AcceptedPatch(graph: Graph) | RefusedPatch(retryable: bool, freshContext: bool) | NoAnswer

  function Assess(g: Graph, t: Trigger, p: Proposal, repair: int, maxRepairs: int, rounds: nat): Result<Assessment, PlanningError> {
    match Decide(g, t, repair, maxRepairs)
    case Err(e) => Err(e)
    case Ok(budget) =>
      if !budget.allowed then Ok(RefusedPatch(false, false))
      else
        match ValidateProposal(g, t, p, rounds)
        case Accepted(g') => Ok(AcceptedPatch(g'))
        case Rejected(e) => Ok(RefusedPatch(budget.mayRepair, e == GraphRefused(StalePatch)))
        case NotReturned => Ok(NoAnswer)
  }

  // ---------------------------------------------------------------- who reports what

  /** These two errors are reported by the patch and by the validation as a whole, not by any of their parts. */
  predicate NotOfParts(err: GraphError) {
    err.TooManyReplans? || err.StalePatch?
  }

  lemma {:induction false} RoundsRaise(w: Work, rounds: nat, err: GraphError)
    requires NotOfParts(err)
    ensures RunRounds(w, rounds) != Raised(err)
    decreases rounds
  {
    if w.queue != [] && rounds > 0 {
      var w1 := w.(queue := w.queue[1..]);
      TaskPassRaises(w1.tasks, Elements(w1.activeTasks), w1, w.queue[0], err);
      var r := TaskPass(w1.tasks, Elements(w1.activeTasks), w1, w.queue[0]);
      if r.Ok? { GroupPassRaises(r.value.groups, Elements(r.value.activeGroups), r.value, w.queue[0], err); }
      if Round(w).Ok? { RoundsRaise(Round(w).value, rounds - 1, err); }
    }
  }

  lemma {:induction false} TaskPassRaises(todo: seq<Task>, live: set<Ref>, w: Work, e: Entry, err: GraphError)
    requires NotOfParts(err)
    ensures TaskPass(todo, live, w, e) != Err(err)
    decreases |todo|
  {
    if todo != [] && VisitTask(todo[0], live, w, e).Ok? { TaskPassRaises(todo[1..], live, VisitTask(todo[0], live, w, e).value, e, err); }
  }

  lemma {:induction false} GroupPassRaises(todo: seq<Group>, live: set<Ref>, w: Work, e: Entry, err: GraphError)
    requires NotOfParts(err)
    ensures GroupPass(todo, live, w, e) != Err(err)
    decreases |todo|
  {
    if todo != [] && VisitGroup(todo[0], live, w, e).Ok? { GroupPassRaises(todo[1..], live, VisitGroup(todo[0], live, w, e).value, e, err); }
  }

  lemma {:induction false} AppendTasksRaises(w: Work, ts: seq<Task>, err: GraphError)
    requires NotOfParts(err)
    ensures AppendTasks(w, ts) != Err(err)
    decreases |ts|
  {
    if ts != [] && AppendTask(w, ts[0]).Ok? { AppendTasksRaises(AppendTask(w, ts[0]).value, ts[1..], err); }
  }

  lemma {:induction false} EnterExpandRaises(w: Work, o: Operation, err: GraphError)
    requires NotOfParts(err)
    ensures EnterExpand(w, o) != Err(err)
  {
    if ActiveTaskById(w, o.taskId).Ok? && o.group.Some? {
      AppendTasksRaises(AppendGroup(Cancel(w, ActiveTaskById(w, o.taskId).value), o.group.value), o.childTasks, err);
    }
  }

  lemma {:induction false} EnterTaskRaises(w: Work, o: Operation, err: GraphError)
    requires NotOfParts(err)
    ensures EnterRevise(w, o) != Err(err) && EnterReplaceTask(w, o) != Err(err) && EnterCancel(w, o) != Err(err)
  {
  }

  lemma {:induction false} EnterRaises(w: Work, o: Operation, err: GraphError)
    requires NotOfParts(err)
    ensures Enter(w, o) != Err(err)
  {
    EnterExpandRaises(w, o, err);
    EnterTaskRaises(w, o, err);
  }

  lemma {:induction false} OperationsRaise(w: Work, ops: seq<Operation>, rounds: nat, err: GraphError)
    requires NotOfParts(err)
    ensures ApplyAll(w, ops, rounds) != Raised(err)
    decreases |ops|
  {
    if ops != [] {
      EnterRaises(w.(queue := []), ops[0], err);
      var entered := Enter(w.(queue := []), ops[0]);
      if entered.Ok? { RoundsRaise(entered.value, rounds, err); }
      var one := ApplyOne(w, ops[0], rounds);
      if one.Done? { OperationsRaise(one.work, ops[1..], rounds, err); }
    }
  }

  lemma {:induction false} SearchRaises(edges: Acyclic.Edges, limit: int, visiting: set<Ref>, visited: set<Ref>, keys: seq<Ref>, err: GraphError)
    requires NotOfParts(err)
    requires Acyclic.Closed(edges) && forall k :: k in keys ==> k in edges
    ensures Acyclic.VisitAll(edges, limit, visiting, visited, keys) != Err(err)
  {
    Acyclic.DepthsAreReal(edges, limit, visiting, visited, keys);
  }

  /** Validation reports the replan count only when the count is over the limit. */
  lemma {:induction false} NotReported(g: Graph, err: GraphError)
    requires err.StalePatch? || (err.TooManyReplans? && g.replanCount <= g.limits.maxReplans)
    ensures Problem(g, false) != Some(err)
  {
    ResolveRaises(TaskItems(g.tasks), g.activeTasks, {}, InvalidActiveTask, err);
    ResolveRaises(GroupItems(g.groups), g.activeGroups, {}, InvalidActiveGroup, err);
    TasksRaise(g, g.tasks, err);
    GroupsRaise(g, g.groups, err);
    match (ResolveActive(TaskItems(g.tasks), g.activeTasks, {}, InvalidActiveTask), ResolveActive(GroupItems(g.groups), g.activeGroups, {}, InvalidActiveGroup))
    case (Ok(ts), Ok(gs)) => SearchRaises(EdgesOf(ts + gs), g.limits.maxDepth, {}, {}, RefsOf(ts + gs), err);
    case _ =>
  }

  lemma {:induction false} ResolveRaises(items: seq<Item>, active: seq<Ref>, seen: set<Ref>, invalid: GraphError, err: GraphError)
    requires NotOfParts(err)
    requires invalid != err
    ensures ResolveActive(items, active, seen, invalid) != Err(err)
    decreases |active|
  {
    if active != [] { ResolveRaises(items, active[1..], seen + {active[0]}, invalid, err); }
  }

  lemma {:induction false} TasksRaise(g: Graph, tasks: seq<Task>, err: GraphError)
    requires NotOfParts(err)
    ensures FirstTaskProblem(g, tasks) != Some(err)
    decreases |tasks|
  {
    if tasks != [] { TasksRaise(g, tasks[1..], err); }
  }

  lemma {:induction false} ChildrenRaise(g: Graph, children: seq<Child>, err: GraphError)
    requires NotOfParts(err)
    ensures ChildrenProblem(g, children) != Some(err)
    decreases |children|
  {
    if children != [] { ChildrenRaise(g, children[1..], err); }
  }

  lemma {:induction false} GroupsRaise(g: Graph, groups: seq<Group>, err: GraphError)
    requires NotOfParts(err)
    ensures FirstGroupProblem(g, groups) != Some(err)
    decreases |groups|
  {
    if groups != [] {
      ChildrenRaise(g, groups[0].children, err);
      GroupsRaise(g, groups[1..], err);
    }
  }

  /** An allowed budget means that the replan count is not what can refuse the patch. For the seed the count
      does not grow, so it has to be within the limit already. */
  lemma {:induction false} AllowedNeverOverReplans(g: Graph, t: Trigger, p: Proposal, repair: int, maxRepairs: int, rounds: nat)
    requires Decide(g, t, repair, maxRepairs).Ok? && Decide(g, t, repair, maxRepairs).value.allowed
    requires t.Seed? ==> g.replanCount <= g.limits.maxReplans
    ensures ValidateProposal(g, t, p, rounds) != Rejected(GraphRefused(TooManyReplans))
  {
    if p.Typed? {
      PatchNeverOverReplans(g, p.patch, rounds);
      if ValidateProposal(g, t, p, rounds) == Rejected(GraphRefused(TooManyReplans)) { RefusedByPatch(g, t, p, rounds, TooManyReplans); }
    }
  }

  lemma {:induction false} RefusedByPatch(g: Graph, t: Trigger, p: Proposal, rounds: nat, err: GraphError)
    requires ValidateProposal(g, t, p, rounds) == Rejected(GraphRefused(err))
    ensures p.Typed? && Apply(g, p.patch, rounds) == Refused(err)
  {
  }

  lemma {:induction false} PatchNeverOverReplans(g: Graph, p: GraphPatch, rounds: nat)
    requires g.replanCount + (if g.revision == 0 then 0 else 1) <= g.limits.maxReplans
    ensures Apply(g, p, rounds) != Refused(TooManyReplans)
  {
    OperationsRaise(ListsOf(g), p.operations, rounds, TooManyReplans);
    var applied := ApplyAll(ListsOf(g), p.operations, rounds);
    if applied.Done? { FinalNotOverReplans(g, Updated(g, applied.work)); }
  }

  lemma {:induction false} FinalNotOverReplans(g: Graph, updated: Graph)
    requires updated.replanCount <= updated.limits.maxReplans
    ensures FinalProblem(g, updated) != Some(TooManyReplans)
  {
    NotReported(updated, TooManyReplans);
  }

  /** A patch is refused as stale exactly when it was made for another revision. */
  lemma {:induction false} StaleIff(g: Graph, p: GraphPatch, rounds: nat)
    ensures Apply(g, p, rounds) == Refused(StalePatch) <==> p.baseRevision != g.revision
  {
    OperationsRaise(ListsOf(g), p.operations, rounds, StalePatch);
    var applied := ApplyAll(ListsOf(g), p.operations, rounds);
    if applied.Done? { NotReported(Updated(g, applied.work), StalePatch); }
  }

  /** Whether the budget lets the Planner be asked: the seed for a graph without revisions, anything else while
      replans are left, and no more repairs than granted. */
  ghost predicate MayAsk(g: Graph, t: Trigger, repair: int, maxRepairs: int) {
    0 <= repair <= maxRepairs && if t.Seed? then g.revision == 0 else g.replanCount < g.limits.maxReplans
  }

  /** A typed patch that answers the trigger, gives a reason and knows its operations. */
  ghost predicate Answers(t: Trigger, p: Proposal) {
    && p.Typed? && p.patch.trigger == TriggerName(t) && HasText(p.patch.reason) && p.patch.operations != []
    && forall o :: o in p.patch.operations ==> !o.op.OtherOperation?
  }

  lemma {:induction false} AnswersIff(g: Graph, t: Trigger, p: Proposal, rounds: nat)
    ensures ValidateProposal(g, t, p, rounds).Accepted? <==> Answers(t, p) && Apply(g, p.patch, rounds).Patched?
    ensures ValidateProposal(g, t, p, rounds).Accepted? ==> Apply(g, p.patch, rounds) == Patched(ValidateProposal(g, t, p, rounds).graph)
    ensures ValidateProposal(g, t, p, rounds).NotReturned? <==> Answers(t, p) && Apply(g, p.patch, rounds).StillRunning?
    ensures ValidateProposal(g, t, p, rounds) == Rejected(GraphRefused(StalePatch)) <==> Answers(t, p) && p.patch.baseRevision != g.revision
  {
    if p.Typed? {
      BlankIff(p.patch.reason);
      StaleIff(g, p.patch, rounds);
    }
  }

  /** The whole assessment. It is in error exactly for negative budgets; a proposal is accepted exactly when the
      Planner may be asked, the proposal answers the trigger, and the patch is accepted; a refusal may be retried
      exactly while a repair is left, and asks for a fresh context exactly when an answer was made for another
      revision. */
  lemma {:induction false} AssessIff(g: Graph, t: Trigger, p: Proposal, repair: int, maxRepairs: int, rounds: nat)
    ensures Assess(g, t, p, repair, maxRepairs, rounds).Err? <==> repair < 0 || maxRepairs < 0
    ensures Assess(g, t, p, repair, maxRepairs, rounds).Ok? ==>
      var a, asked := Assess(g, t, p, repair, maxRepairs, rounds).value, MayAsk(g, t, repair, maxRepairs);
      && (a.AcceptedPatch? <==> asked && Answers(t, p) && Apply(g, p.patch, rounds).Patched?)
      && (a.AcceptedPatch? ==> Apply(g, p.patch, rounds) == Patched(a.graph))
      && (a.NoAnswer? <==> asked && Answers(t, p) && Apply(g, p.patch, rounds).StillRunning?)
      && (a.RefusedPatch? ==>
            && (a.retryable <==> asked && repair < maxRepairs)
            && (a.freshContext <==> asked && Answers(t, p) && p.patch.baseRevision != g.revision))
  {
    AnswersIff(g, t, p, rounds);
  }

  /** What is left of the budget. */
  lemma {:induction false} BudgetLeft(g: Graph, t: Trigger, repair: int, maxRepairs: int)
    requires Decide(g, t, repair, maxRepairs).Ok?
    ensures var b := Decide(g, t, repair, maxRepairs).value;
      && (b.allowed <==> MayAsk(g, t, repair, maxRepairs)) && (b.mayRepair <==> MayAsk(g, t, repair + 1, maxRepairs))
      && b.replansLeft >= 0 && (b.replansLeft > 0 ==> g.replanCount + b.replansLeft == g.limits.maxReplans)
      && (b.replansLeft == 0 <==> g.replanCount >= g.limits.maxReplans)
      && b.repairsLeft >= 0 && (b.repairsLeft > 0 ==> repair + b.repairsLeft == maxRepairs)
      && (b.repairsLeft == 0 <==> repair >= maxRepairs)
  {
  }

  // ---------------------------------------------------------------- planning ends

  lemma {:induction false} ValidWithinReplans(g: Graph)
    requires Valid(g, false)
    ensures g.replanCount <= g.limits.maxReplans
  {
  }

  lemma {:induction false} PatchIsPaidFor(g: Graph, p: GraphPatch, rounds: nat)
    requires Apply(g, p, rounds).Patched?
    ensures var g' := Apply(g, p, rounds).graph;
      && R.Accepted(g') && g'.limits == g.limits && g'.revision == g.revision + 1
      && g'.replanCount == g.replanCount + (if g.revision == 0 then 0 else 1) && g'.replanCount <= g'.limits.maxReplans
  {
    PatchConserves.PatchIsSafe(g, p, rounds);
    ValidWithinReplans(Apply(g, p, rounds).graph);
    LimitsStay(g, p, rounds);
  }

  lemma {:induction false} LimitsStay(g: Graph, p: GraphPatch, rounds: nat)
    requires Apply(g, p, rounds).Patched?
    ensures Apply(g, p, rounds).graph.limits == g.limits
  {
  }

  lemma {:induction false} AcceptedWas(g: Graph, t: Trigger, p: Proposal, repair: int, maxRepairs: int, rounds: nat)
    requires Assess(g, t, p, repair, maxRepairs, rounds).Ok? && Assess(g, t, p, repair, maxRepairs, rounds).value.AcceptedPatch?
    ensures p.Typed? && Apply(g, p.patch, rounds) == Patched(Assess(g, t, p, repair, maxRepairs, rounds).value.graph)
    ensures ReplanAllowed(g, t) && 0 <= repair <= maxRepairs
  {
  }

  lemma {:induction false} RefusedWas(g: Graph, t: Trigger, p: Proposal, repair: int, maxRepairs: int, rounds: nat)
    requires Assess(g, t, p, repair, maxRepairs, rounds).Ok? && Assess(g, t, p, repair, maxRepairs, rounds).value.RefusedPatch?
    ensures Assess(g, t, p, repair, maxRepairs, rounds).value.retryable ==> ReplanAllowed(g, t) && repair < maxRepairs
  {
  }

  /** An accepted patch is one revision further, is paid for by one replan unless it was the first, and the
      count stays within the limit. */
  lemma {:induction false} AcceptedIsPaidFor(g: Graph, t: Trigger, p: Proposal, repair: int, maxRepairs: int, rounds: nat)
    requires Assess(g, t, p, repair, maxRepairs, rounds).Ok? && Assess(g, t, p, repair, maxRepairs, rounds).value.AcceptedPatch?
    ensures var g' := Assess(g, t, p, repair, maxRepairs, rounds).value.graph;
      && R.Accepted(g') && g'.limits == g.limits && g'.revision == g.revision + 1
      && g'.replanCount == g.replanCount + (if g.revision == 0 then 0 else 1) && g'.replanCount <= g'.limits.maxReplans
    ensures ReplanAllowed(g, t) && repair <= maxRepairs
  {
    AcceptedWas(g, t, p, repair, maxRepairs, rounds);
    PatchIsPaidFor(g, p.patch, rounds);
  }

  /** What the budget shows as left is what is left: an accepted patch takes one replan of it, the first patch none, and
      a repair takes one repair. */
  lemma {:induction false} BudgetSpent(g: Graph, t: Trigger, p: Proposal, repair: int, maxRepairs: int, rounds: nat, t': Trigger)
    requires Assess(g, t, p, repair, maxRepairs, rounds).Ok?
    ensures Decide(g, t', repair, maxRepairs).Ok? && Decide(g, t', repair + 1, maxRepairs).Ok?
    ensures Assess(g, t, p, repair, maxRepairs, rounds).value.AcceptedPatch? ==>
      var g' := Assess(g, t, p, repair, maxRepairs, rounds).value.graph;
      && Decide(g', t', 0, maxRepairs).Ok?
      && Decide(g', t', 0, maxRepairs).value.replansLeft == Decide(g, t', repair, maxRepairs).value.replansLeft - (if g.revision == 0 then 0 else 1)
    ensures Decide(g, t', repair + 1, maxRepairs).value.repairsLeft
         == if repair < maxRepairs then Decide(g, t', repair, maxRepairs).value.repairsLeft - 1 else 0
  {
    if Assess(g, t, p, repair, maxRepairs, rounds).value.AcceptedPatch? {
      AcceptedIsPaidFor(g, t, p, repair, maxRepairs, rounds);
      BudgetLeft(Assess(g, t, p, repair, maxRepairs, rounds).value.graph, t', 0, maxRepairs);
    }
    BudgetLeft(g, t', repair, maxRepairs);
    BudgetLeft(g, t', repair + 1, maxRepairs);
  }

  /** Where a planning loop stands: the graph and the number of repairs of the current proposal. */
  datatype PlanState = PlanState(graph: Graph, repair: nat)

  /** One answer of the Planner, assessed: an accepted patch starts the next call, a retryable refusal is
      repaired, anything else ends the loop. */
  ghost predicate PlanStep(maxRepairs: nat, s: PlanState, s': PlanState) {
    exists t, p, rounds :: StepBy(maxRepairs, s, s', t, p, rounds)
  }

  ghost predicate StepBy(maxRepairs: nat, s: PlanState, s': PlanState, t: Trigger, p: Proposal, rounds: nat) {
    match Assess(s.graph, t, p, s.repair, maxRepairs, rounds)
    case Ok(AcceptedPatch(g')) => s' == PlanState(g', 0)
    case Ok(RefusedPatch(retryable, _)) => retryable && s' == PlanState(s.graph, s.repair + 1)
    case _ => false
  }

  /** Replans left, the first patch counted as one more. */
  function ReplansLeft(g: Graph): nat {
    (if g.replanCount < g.limits.maxReplans then g.limits.maxReplans - g.replanCount else 0) + (if g.revision == 0 then 1 else 0)
  }

  function RepairsLeft(maxRepairs: nat, repair: nat): nat {
    if repair <= maxRepairs then maxRepairs + 1 - repair else 0
  }

  /** The lexicographic measure (replans left, repairs left), as one number. */
  function StepsLeft(maxRepairs: nat, s: PlanState): nat {
    ReplansLeft(s.graph) * (maxRepairs + 2) + RepairsLeft(maxRepairs, s.repair)
  }

  lemma {:induction false} StepSpends(maxRepairs: nat, s: PlanState, s': PlanState)
    requires PlanStep(maxRepairs, s, s') && s.graph.revision >= 0
    ensures StepsLeft(maxRepairs, s') < StepsLeft(maxRepairs, s) && s'.graph.revision >= 0
    ensures s'.repair == 0 ==> ReplansLeft(s'.graph) < ReplansLeft(s.graph)
    ensures s'.repair > 0 ==> s'.graph == s.graph && s'.repair <= maxRepairs
  {
    PlanStepKinds(maxRepairs, s, s');
    if Moved(maxRepairs, s, s') { MovedSpends(maxRepairs, s, s'); }
  }

  lemma {:induction false} PlanStepKinds(maxRepairs: nat, s: PlanState, s': PlanState)
    requires PlanStep(maxRepairs, s, s')
    ensures Moved(maxRepairs, s, s') || Repaired(maxRepairs, s, s')
  {
    var t, p, rounds :| StepBy(maxRepairs, s, s', t, p, rounds);
    StepKinds(maxRepairs, s, s', t, p, rounds);
  }

  lemma {:induction false} MovedSpends(maxRepairs: nat, s: PlanState, s': PlanState)
    requires Moved(maxRepairs, s, s') && s.graph.revision >= 0
    ensures ReplansLeft(s'.graph) == ReplansLeft(s.graph) - 1
    ensures StepsLeft(maxRepairs, s') < StepsLeft(maxRepairs, s)
  {
    var left, each := ReplansLeft(s'.graph), maxRepairs + 2;
    assert (left + 1) * each == left * each + each;
  }

  /** The graph moved on, paid for by a replan, or the same proposal is repaired. */
  ghost predicate Moved(maxRepairs: nat, s: PlanState, s': PlanState) {
    var g, g' := s.graph, s'.graph;
    && s'.repair == 0 && s.repair <= maxRepairs && g'.limits == g.limits && g'.revision == g.revision + 1
    && g'.replanCount == g.replanCount + (if g.revision == 0 then 0 else 1) && g'.replanCount <= g'.limits.maxReplans
  }

  ghost predicate Repaired(maxRepairs: nat, s: PlanState, s': PlanState) {
    s' == PlanState(s.graph, s.repair + 1) && s.repair < maxRepairs
  }

  lemma {:induction false} StepKinds(maxRepairs: nat, s: PlanState, s': PlanState, t: Trigger, p: Proposal, rounds: nat)
    requires StepBy(maxRepairs, s, s', t, p, rounds)
    ensures Moved(maxRepairs, s, s') || Repaired(maxRepairs, s, s')
  {
    var a := Assess(s.graph, t, p, s.repair, maxRepairs, rounds).value;
    if a.AcceptedPatch? {
      AcceptedIsPaidFor(s.graph, t, p, s.repair, maxRepairs, rounds);
    } else {
      RefusedWas(s.graph, t, p, s.repair, maxRepairs, rounds);
    }
  }

  ghost predicate IsPlanning(maxRepairs: nat, run: seq<PlanState>) {
    forall i :: 0 <= i < |run| - 1 ==> PlanStep(maxRepairs, run[i], run[i + 1])
  }

  /** However the Planner answers, a planning run is no longer than its budget. */
  lemma {:induction false} PlanningEnds(maxRepairs: nat, run: seq<PlanState>, n: nat)
    requires IsPlanning(maxRepairs, run) && n < |run| && run[0].graph.revision >= 0
    ensures n <= StepsLeft(maxRepairs, run[0]) - StepsLeft(maxRepairs, run[n]) && run[n].graph.revision >= 0
    decreases n
  {
    if n > 0 {
      PlanningEnds(maxRepairs, run, n - 1);
      assert PlanStep(maxRepairs, run[n - 1], run[n - 1 + 1]);
      StepSpends(maxRepairs, run[n - 1], run[n]);
    }
  }

  lemma {:induction false} PlanningIsBounded(maxRepairs: nat, run: seq<PlanState>)
    requires IsPlanning(maxRepairs, run) && run != [] && run[0].graph.revision >= 0
    ensures |run| <= StepsLeft(maxRepairs, run[0]) + 1
  {
    PlanningEnds(maxRepairs, run, |run| - 1);
  }

  /** Accepted patches up to time `n`, those made at revision zero apart. */
  ghost function ReplansMade(run: seq<PlanState>, n: nat): nat
    requires n < |run|
    decreases n
  {
    if n == 0 then 0 else ReplansMade(run, n - 1) + if run[n].repair == 0 && run[n - 1].graph.revision != 0 then 1 else 0
  }

  /** Every accepted patch after revision zero is counted, so there are never more than the limit allows. */
  lemma {:induction false} ReplansCounted(maxRepairs: nat, run: seq<PlanState>, n: nat)
    requires IsPlanning(maxRepairs, run) && n < |run| && run[0].graph.revision >= 0
    ensures run[n].graph.replanCount == run[0].graph.replanCount + ReplansMade(run, n) && run[n].graph.limits == run[0].graph.limits
    ensures ReplansMade(run, n) > 0 ==> run[0].graph.replanCount + ReplansMade(run, n) <= run[0].graph.limits.maxReplans
    decreases n
  {
    if n > 0 {
      ReplansCounted(maxRepairs, run, n - 1);
      assert PlanStep(maxRepairs, run[n - 1], run[n - 1 + 1]);
      var s, s' := run[n - 1], run[n];
      PlanStepKinds(maxRepairs, s, s');
    }
  }
}
