/** Incremental graph patches (`apply_graph_patch`). Every operation edits the lists directly and then, when
    it replaced a revision, runs the reference-rewrite worklist. */
module Patch {
  import opened Core
  import opened Items
  import opened Text
  import opened Rewrite
  import opened Validation
  import opened Ready

  datatype OpKind =
    | AddTask | AddRepairTask | AddVerificationTask | AddGroup
    | ReplaceDependencies | SetPriority
    | ReplacePendingTask | SetExecutorPolicy | SupersedeCompletedTask
    | ReplacePendingGroup | CancelPendingTask | ExpandTask
    | OtherOperation

  datatype Operation = Operation(
    op: OpKind,
    expectedRevision: Option<int>,
    task: Option<Task>,
    group: Option<Group>,
    taskId: Option<string>,
    groupId: Option<string>,
    dependencies: seq<Ref>,
    priority: Option<int>,
    policy: Option<ExecutorPolicy>,
    childTasks: seq<Task>)

  datatype GraphPatch = GraphPatch(baseRevision: int, trigger: string, reason: string, operations: seq<Operation>)

  function WithId(refs: seq<Ref>, kind: RefKind, id: string): set<Ref> {
    set r | r in refs && r.kind == kind && r.id == id
  }

  function TheElement(s: set<Ref>): (r: Ref)
    requires |s| == 1
    ensures s == {r}
  {
    Singleton(s);
    var r :| r in s;
    r
  }

  lemma {:induction false} Singleton(s: set<Ref>)
    requires |s| == 1
    ensures forall a, b :: a in s && b in s ==> a == b
  {
    forall a, b | a in s && b in s ensures a == b {
      assert |s - {a}| == 0;
    }
  }

  function ActiveTaskById(w: Work, id: Option<string>): (r: Result<Task, GraphError>)
    ensures r.Ok? ==> r.value in w.tasks && r.value.AsRef() in w.activeTasks && id == Some(r.value.id)
  {
    if id.None? || id.value == "" then Err(MissingTargetId)
    else
      var active := WithId(w.activeTasks, TaskKind, id.value);
      if |active| != 1 then Err(NotUniquelyActive)
      else
        match FindTask(w.tasks, TheElement(active))
        case None => Err(UnlistedTarget)
        case Some(t) => Ok(t)
  }

  function ActiveGroupById(w: Work, id: Option<string>): (r: Result<Group, GraphError>)
    ensures r.Ok? ==> r.value in w.groups && r.value.AsRef() in w.activeGroups && id == Some(r.value.id)
  {
    if id.None? || id.value == "" then Err(MissingTargetId)
    else
      var active := WithId(w.activeGroups, GroupKind, id.value);
      if |active| != 1 then Err(NotUniquelyActive)
      else
        match FindGroup(w.groups, TheElement(active))
        case None => Err(UnlistedTarget)
        case Some(g) => Ok(g)
  }

  function AppendTask(w: Work, t: Task): Result<Work, GraphError> {
    if HasTask(w.tasks, t.AsRef()) then Err(DuplicateTask)
    else Ok(w.(tasks := w.tasks + [t], activeTasks := w.activeTasks + [t.AsRef()]))
  }

  function AppendTasks(w: Work, ts: seq<Task>): Result<Work, GraphError>
    decreases |ts|
  {
    if ts == [] then Ok(w)
    else
      match AppendTask(w, ts[0])
      case Err(e) => Err(e)
      case Ok(w1) => AppendTasks(w1, ts[1..])
  }

  function AppendGroup(w: Work, g: Group): Work {
    w.(groups := w.groups + [g], activeGroups := w.activeGroups + [g.AsRef()])
  }

  /** Appends the next revision of an active Task and queues its rewrite. */
  function Supersede(w: Work, t: Task, r: Task): Work {
    var e := Entry(t.AsRef(), r.AsRef());
    w.(tasks := w.tasks + [r], activeTasks := ReplaceRef(w.activeTasks, e), queue := [e])
  }

  function Cancel(w: Work, t: Task): Work {
    w.(tasks := seq(|w.tasks|, i requires 0 <= i < |w.tasks| =>
                      if w.tasks[i].AsRef() == t.AsRef() then t.(status := Cancelled) else w.tasks[i]),
       activeTasks := Without(w.activeTasks, t.AsRef()))
  }

  function Without(refs: seq<Ref>, ref: Ref): (r: seq<Ref>)
    ensures forall x :: x in r <==> x in refs && x != ref
  {
    if refs == [] then [] else (if refs[0] == ref then [] else [refs[0]]) + Without(refs[1..], ref)
  }

  /** The edit of one operation; a non-empty queue asks for the worklist. */
  function Enter(w: Work, o: Operation): Result<Work, GraphError> {
    match o.op
    case AddTask => EnterAddTask(w, o)
    case AddRepairTask => EnterAddTask(w, o)
    case AddVerificationTask => EnterAddTask(w, o)
    case AddGroup => EnterAddGroup(w, o)
    case ReplaceDependencies => EnterRevise(w, o)
    case SetPriority => EnterRevise(w, o)
    case ReplacePendingTask => EnterReplaceTask(w, o)
    case SetExecutorPolicy => EnterReplaceTask(w, o)
    case SupersedeCompletedTask => EnterReplaceTask(w, o)
    case ReplacePendingGroup => EnterReplaceGroup(w, o)
    case CancelPendingTask => EnterCancel(w, o)
    case ExpandTask => EnterExpand(w, o)
    case OtherOperation => Err(UnsupportedOperation)
  }

  function EnterAddTask(w: Work, o: Operation): Result<Work, GraphError> {
    if o.task.None? then Err(MissingTask) else AppendTask(w, o.task.value)
  }

  function EnterAddGroup(w: Work, o: Operation): Result<Work, GraphError> {
    if o.group.None? then Err(MissingGroup)
    else if HasGroup(w.groups, o.group.value.AsRef()) then Err(DuplicateGroup)
    else Ok(AppendGroup(w, o.group.value))
  }

  /** `replace_dependencies` and `set_priority`. The new revision is not compared with the listed ones. */
  function EnterRevise(w: Work, o: Operation): Result<Work, GraphError> {
    match ActiveTaskById(w, o.taskId)
    case Err(e) => Err(e)
    case Ok(t) =>
      if o.expectedRevision != Some(t.revision) then Err(StaleTarget)
      else if t.status != Pending then Err(WrongStatus)
      else if o.op.SetPriority? && o.priority.None? then Err(MissingPriority)
      else
        var next := t.(revision := t.revision + 1);
        Ok(Supersede(w, t, if o.op.SetPriority? then next.(priority := o.priority.value) else next.(dependsOn := o.dependencies)))
  }

  predicate CleanTask(t: Task) {
    t.status == Pending && t.activeAttempt.None? && t.outputs == [] && t.failure.None?
  }

  function TaskReplacement(t: Task, o: Operation): Result<Task, GraphError> {
    if o.op.SetExecutorPolicy? then
      if o.policy.None? then Err(MissingExecutorPolicy)
      else Ok(t.(revision := t.revision + 1, policy := o.policy.value))
    else if o.task.None? then Err(MissingTask)
    else if o.task.value.id != t.id || o.task.value.revision != t.revision + 1 then Err(NotSameLogicalId)
    else if !CleanTask(o.task.value) then Err(NotCleanPending)
    else Ok(o.task.value)
  }

  /** `replace_pending_task`, `set_executor_policy` and `supersede_completed_task`. */
  function EnterReplaceTask(w: Work, o: Operation): Result<Work, GraphError> {
    match ActiveTaskById(w, o.taskId)
    case Err(e) => Err(e)
    case Ok(t) =>
      if o.expectedRevision != Some(t.revision) then Err(StaleTarget)
      else if t.status != (if o.op.SupersedeCompletedTask? then Completed else Pending) then Err(WrongStatus)
      else
        match TaskReplacement(t, o)
        case Err(e) => Err(e)
        case Ok(r) => if HasTask(w.tasks, r.AsRef()) then Err(DuplicateTask) else Ok(Supersede(w, t, r))
  }

  function EnterReplaceGroup(w: Work, o: Operation): Result<Work, GraphError> {
    match ActiveGroupById(w, o.groupId)
    case Err(e) => Err(e)
    case Ok(g) =>
      if o.expectedRevision != Some(g.revision) then Err(StaleTarget)
      else if g.status != Pending then Err(WrongStatus)
      else if o.group.None? then Err(MissingGroup)
      else
        var r := o.group.value;
        if r.id != g.id || r.revision != g.revision + 1 then Err(NotSameLogicalId)
        else if r.status != Pending || r.winner.Some? || r.verification.Some? then Err(NotCleanPending)
        else if HasGroup(w.groups, r.AsRef()) then Err(DuplicateGroup)
        else
          var e := Entry(g.AsRef(), r.AsRef());
          Ok(w.(groups := w.groups + [r], activeGroups := ReplaceRef(w.activeGroups, e), queue := [e]))
  }

  function EnterCancel(w: Work, o: Operation): Result<Work, GraphError> {
    match ActiveTaskById(w, o.taskId)
    case Err(e) => Err(e)
    case Ok(t) =>
      if o.expectedRevision != Some(t.revision) then Err(StaleTarget)
      else if t.status != Pending then Err(WrongStatus)
      else Ok(Cancel(w, t))
  }

  function EnterExpand(w: Work, o: Operation): Result<Work, GraphError> {
    match ActiveTaskById(w, o.taskId)
    case Err(e) => Err(e)
    case Ok(t) =>
      if o.expectedRevision != Some(t.revision) then Err(StaleTarget)
      else if t.status != Pending || t.shape != Expandable then Err(NotExpandable)
      else if o.group.None? then Err(MissingGroup)
      else
        var g := o.group.value;
        if g.dependsOn != t.dependsOn then Err(ExpansionDependencies)
        else if g.supports != t.supports || g.required != t.required then Err(ExpansionCoverage)
        else if g.intentBindingHash != t.intentBindingHash then Err(ExpansionBinding)
        else if Elements(ChildRefs(g.children)) != Elements(RefsOf(TaskItems(o.childTasks))) then Err(ExpansionChildren)
        else if HasGroup(w.groups, g.AsRef()) then Err(DuplicateGroup)
        else
          match AppendTasks(AppendGroup(Cancel(w, t), g), o.childTasks)
          case Err(e) => Err(e)
          case Ok(w2) => Ok(w2.(queue := [Entry(t.AsRef(), g.AsRef())]))
  }

  /** One operation, the worklist being granted `rounds` iterations. */
  function ApplyOne(w: Work, o: Operation, rounds: nat): Outcome {
    match Enter(w.(queue := []), o)
    case Err(e) => Raised(e)
    case Ok(w1) => RunRounds(w1, rounds)
  }

  function ApplyAll(w: Work, ops: seq<Operation>, rounds: nat): Outcome
    decreases |ops|
  {
    if ops == [] then Done(w)
    else
      match ApplyOne(w, ops[0], rounds)
      case Done(w1) => ApplyAll(w1, ops[1..], rounds)
      case other => other
  }

  function ListsOf(g: Graph): Work {
    Work(g.tasks, g.activeTasks, g.groups, g.activeGroups, [])
  }

  function PatchError(g: Graph, p: GraphPatch): Option<GraphError> {
    if p.baseRevision != g.revision then Some(StalePatch)
    else if Blank(p.trigger) || Blank(p.reason) then Some(BlankTriggerOrReason)
    else if p.operations == [] then Some(EmptyPatch)
    else None
  }

  function Updated(g: Graph, w: Work): Graph {
    g.(revision := g.revision + 1,
       status := if g.status == Planning then Active else g.status,
       tasks := w.tasks, groups := w.groups, activeTasks := w.activeTasks, activeGroups := w.activeGroups,
       replanCount := g.replanCount + if g.revision == 0 then 0 else 1)
  }

  /** The checks on the finished graph. */
  function FinalProblem(g: Graph, updated: Graph): Option<GraphError> {
    match Problem(updated, false)
    case Some(e) => Some(e)
    case None =>
      if !ActiveTargetsOk(updated) then Some(InactiveTarget)
      else if g.revision == 0 && ReadyTasks(updated) == Ok([]) then Some(NoReadySeed)
      else None
  }

  predicate ActiveTargetsOk(g: Graph) {
    match (ResolveActive(TaskItems(g.tasks), g.activeTasks, {}, InvalidActiveTask), ResolveActive(GroupItems(g.groups), g.activeGroups, {}, InvalidActiveGroup))
    case (Ok(ts), Ok(gs)) => TargetsOk(g, ts + gs)
    case _ => false
  }

  datatype PatchOutcome = Patched(graph: Graph) | Refused(error: GraphError) | StillRunning

  /** The whole patch, every worklist run being granted `rounds` iterations. */
  function Apply(g: Graph, p: GraphPatch, rounds: nat): PatchOutcome {
    match PatchError(g, p)
    case Some(e) => Refused(e)
    case None =>
      match ApplyAll(ListsOf(g), p.operations, rounds)
      case Raised(e) => Refused(e)
      case Unfinished => StillRunning
      case Done(w) =>
        match FinalProblem(g, Updated(g, w))
        case Some(e) => Refused(e)
        case None => Patched(Updated(g, w))
  }

  // ---------------------------------------------------------------- the loop over the operations

  lemma {:induction false} MoreRoundsSamePatch(w: Work, ops: seq<Operation>, few: nat, many: nat)
    requires few <= many && ApplyAll(w, ops, few) != Unfinished
    ensures ApplyAll(w, ops, many) == ApplyAll(w, ops, few)
    decreases |ops|
  {
    if ops != [] {
      var entered := Enter(w.(queue := []), ops[0]);
      if entered.Ok? { MoreRoundsSameOutcome(entered.value, few, many); }
      var one := ApplyOne(w, ops[0], few);
      if one.Done? { MoreRoundsSamePatch(one.work, ops[1..], few, many); }
    }
  }

  lemma {:induction false} EntersAtMostOne(w: Work, o: Operation)
    requires w.queue == [] && Enter(w, o).Ok?
    ensures |Enter(w, o).value.queue| <= 1
  {
  }

  /** The patch finishes: every worklist run it starts does. */
  ghost predicate PatchTerminates(g: Graph, p: GraphPatch) {
    exists rounds: nat :: Apply(g, p, rounds) != StillRunning
  }

  lemma {:induction false} RoundsAgree(g: Graph, p: GraphPatch, one: nat, other: nat)
    requires Apply(g, p, one) != StillRunning && Apply(g, p, other) != StillRunning
    ensures Apply(g, p, one) == Apply(g, p, other)
  {
    if PatchError(g, p).None? {
      if one < other { MoreRoundsSamePatch(ListsOf(g), p.operations, one, other); } else { MoreRoundsSamePatch(ListsOf(g), p.operations, other, one); }
    }
  }

  /** One operation on the lists; `total` rounds are enough for its worklist run. */
  method ApplyOperation(w: Work, o: Operation, ghost total: nat) returns (result: Outcome)
    requires w.queue == [] && ApplyOne(w, o, total) != Unfinished
    ensures result == ApplyOne(w, o, total)
    ensures result.Done? ==> result.work.queue == []
  {
    assert w == w.(queue := []);
    var edited := Enter(w, o);
    if edited.Err? { return Raised(edited.error); }
    EntersAtMostOne(w, o);
    if edited.value.queue == [] { return Done(edited.value); }
    var e := edited.value.queue[0];
    assert edited.value.queue == [e];
    OutcomeIsAnyFinishedRun(edited.value, total);
    result := RewritePendingReferences(edited.value.tasks, edited.value.activeTasks, edited.value.groups, edited.value.activeGroups, e.source, e.target);
  }

  /** The source's loop; like the worklist it may be called exactly when it terminates. */
  method ApplyGraphPatch(g: Graph, p: GraphPatch) returns (result: PatchOutcome)
    requires PatchTerminates(g, p)
    ensures forall rounds: nat :: Apply(g, p, rounds) != StillRunning ==> result == Apply(g, p, rounds)
    ensures result != StillRunning
  {
    ghost var total: nat :| Apply(g, p, total) != StillRunning;
    forall rounds: nat | Apply(g, p, rounds) != StillRunning
      ensures Apply(g, p, rounds) == Apply(g, p, total)
    {
      RoundsAgree(g, p, rounds, total);
    }
    var early := PatchError(g, p);
    if early.Some? { return Refused(early.value); }
    var w := ListsOf(g);
    var i := 0;
    while i < |p.operations|
      invariant 0 <= i <= |p.operations| && w.queue == []
      invariant ApplyAll(w, p.operations[i..], total) == ApplyAll(ListsOf(g), p.operations, total)
    {
      assert p.operations[i..][0] == p.operations[i] && p.operations[i..][1..] == p.operations[i + 1..];
      var outcome := ApplyOperation(w, p.operations[i], total);
      if outcome.Raised? { return Refused(outcome.error); }
      w := outcome.work;
      i := i + 1;
    }
    var last := FinalProblem(g, Updated(g, w));
    if last.Some? { return Refused(last.value); }
    return Patched(Updated(g, w));
  }
}
