/** Exactly when a patch is accepted, and exactly when each of its operations is. */
module PatchAccepts {
  import opened Core
  import opened Items
  import opened Text
  import opened Rewrite
  import opened RewritePass
  import opened RewriteRound
  import opened RewriteLog
  import opened RewriteTheorems
  import opened RewriteTermination
  import opened RewriteRaising
  import opened RunOrder
  import opened Validation
  import opened Ready
  import opened Patch
  import opened PatchConserves
  import opened PatchEdits
  import opened PatchOrder
  import opened PatchTermination

  lemma {:induction false} NoReadyMeans(g: Graph)
    requires Valid(g, false)
    ensures ReadyTasks(g) == Ok([]) <==> !exists t :: MayStart(g, t)
  {
    ReadyTasksMeans(g);
    var ready := ReadyList(g);
    if ready != [] { assert ready[0] in ready && MayStart(g, ready[0]); }
  }

  lemma {:induction false} FinalIff(g: Graph, updated: Graph)
    ensures FinalProblem(g, updated).None? <==> Accepted(updated) && (g.revision == 0 ==> exists t :: MayStart(updated, t))
  {
    AcceptedIffValid(updated, false);
    if Valid(updated, false) {
      TargetsChecked(updated);
      NoReadyMeans(updated);
    }
  }

  lemma {:induction false} AppliedWhen(g: Graph, p: GraphPatch, rounds: nat, w: Work)
    requires ApplyAll(ListsOf(g), p.operations, rounds) == Done(w)
    ensures Apply(g, p, rounds).Patched? <==> PatchError(g, p).None? && FinalProblem(g, Updated(g, w)).None?
    ensures Apply(g, p, rounds).Patched? ==> Apply(g, p, rounds) == Patched(Updated(g, w))
  {
  }

  lemma {:induction false} PatchErrorIff(g: Graph, p: GraphPatch)
    ensures PatchError(g, p).None? <==> p.baseRevision == g.revision && HasText(p.trigger) && HasText(p.reason) && p.operations != []
  {
    BlankIff(p.trigger);
    BlankIff(p.reason);
  }

  /** A patch whose operations all succeed is accepted exactly when it was made for this revision, says why, does
      something, and leaves a valid graph in which all that live items mention is active or completed; the
      first patch must leave a Task that may start. The new graph has the lists that the operations left, is one
      revision further, and counts a replan unless it is the first. */
  lemma {:induction false} PatchedIff(g: Graph, p: GraphPatch, rounds: nat, w: Work, updated: Graph)
    requires ApplyAll(ListsOf(g), p.operations, rounds) == Done(w)
    requires updated == g.(revision := g.revision + 1, status := if g.status == Planning then Active else g.status,
                           tasks := w.tasks, groups := w.groups, activeTasks := w.activeTasks, activeGroups := w.activeGroups,
                           replanCount := if g.revision == 0 then g.replanCount else g.replanCount + 1)
    ensures Apply(g, p, rounds).Patched? ==> Apply(g, p, rounds) == Patched(updated)
    ensures Apply(g, p, rounds).Patched? <==>
      && p.baseRevision == g.revision && HasText(p.trigger) && HasText(p.reason) && p.operations != []
      && Accepted(updated) && (g.revision == 0 ==> exists t :: MayStart(updated, t))
  {
    UpdatedIs(g, w, updated);
    AppliedWhen(g, p, rounds, w);
    PatchErrorIff(g, p);
    FinalIff(g, updated);
  }

  lemma {:induction false} UpdatedIs(g: Graph, w: Work, updated: Graph)
    requires updated == g.(revision := g.revision + 1, status := if g.status == Planning then Active else g.status,
                           tasks := w.tasks, groups := w.groups, activeTasks := w.activeTasks, activeGroups := w.activeGroups,
                           replanCount := if g.revision == 0 then g.replanCount else g.replanCount + 1)
    ensures Updated(g, w) == updated
  {
  }

  // ---------------------------------------------------------------- one operation

  /** The live Task that the operation names, at the revision it expects. */
  ghost predicate Targets(w: Work, o: Operation, t: Task)
    requires WorkOk(w)
  {
    TaskItem(t) in Live(w) && t.id != "" && o.taskId == Some(t.id) && o.expectedRevision == Some(t.revision)
  }

  ghost predicate TargetsGroup(w: Work, o: Operation, g: Group)
    requires WorkOk(w)
  {
    GroupItem(g) in Live(w) && g.id != "" && o.groupId == Some(g.id) && o.expectedRevision == Some(g.revision)
  }

  /** A next revision of a Task that nobody has worked on. */
  ghost predicate IsNextOf(t: Task, r: Task) {
    r.id == t.id && r.revision == t.revision + 1 && r.status == Pending && r.activeAttempt.None? && r.outputs == [] && r.failure.None?
  }

  ghost predicate IsNextOfGroup(g: Group, r: Group) {
    r.id == g.id && r.revision == g.revision + 1 && r.status == Pending && r.winner.None? && r.verification.None?
  }

  ghost predicate Distinct(refs: seq<Ref>) {
    forall i, j :: 0 <= i < j < |refs| ==> refs[i] != refs[j]
  }

  /** The Group stands for the Task, and its children are exactly the Tasks given, which are new. */
  ghost predicate Expands(w: Work, o: Operation, t: Task, g: Group) {
    && t.status == Pending && t.shape == Expandable
    && g.dependsOn == t.dependsOn && g.supports == t.supports && g.required == t.required && g.intentBindingHash == t.intentBindingHash
    && (forall r :: r in ChildRefs(g.children) <==> r in RefsOf(TaskItems(o.childTasks)))
    && !Known(w, g.AsRef()) && Distinct(RefsOf(TaskItems(o.childTasks)))
    && forall r :: r in RefsOf(TaskItems(o.childTasks)) ==> !Known(w, r)
  }

  /** What each operation needs. */
  ghost predicate Applicable(w: Work, o: Operation)
    requires WorkOk(w)
  {
    match o.op
    case AddTask => o.task.Some? && !Known(w, o.task.value.AsRef())
    case AddRepairTask => o.task.Some? && !Known(w, o.task.value.AsRef())
    case AddVerificationTask => o.task.Some? && !Known(w, o.task.value.AsRef())
    case AddGroup => o.group.Some? && !Known(w, o.group.value.AsRef())
    case ReplaceDependencies => exists t :: Targets(w, o, t) && t.status == Pending
    case SetPriority => o.priority.Some? && exists t :: Targets(w, o, t) && t.status == Pending
    case SetExecutorPolicy => o.policy.Some? && exists t :: Targets(w, o, t) && t.status == Pending
    case CancelPendingTask => exists t :: Targets(w, o, t) && t.status == Pending
    case ReplacePendingTask => o.task.Some? && exists t :: Targets(w, o, t) && t.status == Pending && IsNextOf(t, o.task.value)
    case SupersedeCompletedTask => o.task.Some? && exists t :: Targets(w, o, t) && t.status == Completed && IsNextOf(t, o.task.value)
    case ReplacePendingGroup => o.group.Some? && exists g :: TargetsGroup(w, o, g) && g.status == Pending && IsNextOfGroup(g, o.group.value)
    case ExpandTask => o.group.Some? && exists t :: Targets(w, o, t) && Expands(w, o, t, o.group.value)
    case OtherOperation => false
  }

  lemma {:induction false} OnlyElement(s: set<Ref>, r: Ref)
    requires s == {r}
    ensures |s| == 1 && TheElement(s) == r
  {
  }

  lemma {:induction false} NamedTask(w: Work, t: Task)
    requires WorkOk(w) && LiveIsNewest(w) && TaskItem(t) in Live(w) && t.id != ""
    ensures ActiveTaskById(w, Some(t.id)) == Ok(t)
  {
    LiveMeans(w, TaskItem(t));
    var named := WithId(w.activeTasks, TaskKind, t.id);
    forall r | r in named ensures r == t.AsRef() { ActiveRefOfTask(w, t, r); }
    OnlyElement(named, t.AsRef());
    SameRefSameTask(w.tasks, FindTask(w.tasks, t.AsRef()).value, t);
  }

  lemma {:induction false} NamedGroup(w: Work, g: Group)
    requires WorkOk(w) && LiveIsNewest(w) && GroupItem(g) in Live(w) && g.id != ""
    ensures ActiveGroupById(w, Some(g.id)) == Ok(g)
  {
    LiveMeans(w, GroupItem(g));
    var named := WithId(w.activeGroups, GroupKind, g.id);
    forall r | r in named ensures r == g.AsRef() {
      var j := LiveAt(w, r);
      SameIdSameItem(w, GroupItem(g), Live(w)[j]);
    }
    OnlyElement(named, g.AsRef());
    SameRefSameGroup(w.groups, FindGroup(w.groups, g.AsRef()).value, g);
  }

  /** The named Task is found exactly if it is live, and at most one is. */
  lemma {:induction false} NamedIff(w: Work, o: Operation, t: Task)
    requires WorkOk(w) && LiveIsNewest(w)
    ensures Targets(w, o, t) <==> ActiveTaskById(w, o.taskId) == Ok(t) && o.expectedRevision == Some(t.revision)
  {
    if Targets(w, o, t) { NamedTask(w, t); }
    if ActiveTaskById(w, o.taskId) == Ok(t) { LiveMeans(w, TaskItem(t)); }
  }

  lemma {:induction false} NamedGroupIff(w: Work, o: Operation, g: Group)
    requires WorkOk(w) && LiveIsNewest(w)
    ensures TargetsGroup(w, o, g) <==> ActiveGroupById(w, o.groupId) == Ok(g) && o.expectedRevision == Some(g.revision)
  {
    if TargetsGroup(w, o, g) { NamedGroup(w, g); }
    if ActiveGroupById(w, o.groupId) == Ok(g) { LiveMeans(w, GroupItem(g)); }
  }

  lemma {:induction false} TaskKnownIff(w: Work, t: Task)
    ensures HasTask(w.tasks, t.AsRef()) <==> Known(w, t.AsRef())
  {
    HasTaskIsHasRef(w.tasks, t.AsRef());
    KindOfLane(w, t.AsRef());
  }

  lemma {:induction false} GroupKnownIff(w: Work, g: Group)
    ensures HasGroup(w.groups, g.AsRef()) <==> Known(w, g.AsRef())
  {
    HasGroupIsHasRef(w.groups, g.AsRef());
    KindOfLane(w, g.AsRef());
  }

  lemma {:induction false} AddIff(w: Work, o: Operation)
    requires WorkOk(w) && (o.op.AddTask? || o.op.AddRepairTask? || o.op.AddVerificationTask? || o.op.AddGroup?)
    ensures Enter(w, o).Ok? <==> Applicable(w, o)
  {
    if o.task.Some? { TaskKnownIff(w, o.task.value); }
    if o.group.Some? { GroupKnownIff(w, o.group.value); }
  }

  lemma {:induction false} ReviseIff(w: Work, o: Operation)
    requires WorkOk(w) && LiveIsNewest(w) && (o.op.ReplaceDependencies? || o.op.SetPriority? || o.op.CancelPendingTask?)
    ensures Enter(w, o).Ok? <==> Applicable(w, o)
  {
    forall t ensures Targets(w, o, t) <==> ActiveTaskById(w, o.taskId) == Ok(t) && o.expectedRevision == Some(t.revision) { NamedIff(w, o, t); }
  }

  lemma {:induction false} NextRevisionNew(w: Work, m: Item, x: Item)
    requires WorkOk(w) && LiveIsNewest(w) && m in Live(w) && x.AsRef() == m.AsRef().(revision := m.AsRef().revision + 1)
    ensures !Known(w, x.AsRef())
  {
    NextIsNewer(w, m, x);
  }

  /** The replacement that the operation carries fits the Task. */
  ghost predicate Carries(o: Operation, t: Task) {
    if o.op.SetExecutorPolicy? then o.policy.Some? else o.task.Some? && IsNextOf(t, o.task.value)
  }

  lemma {:induction false} ReplacementIff(t: Task, o: Operation)
    ensures TaskReplacement(t, o).Ok? <==> Carries(o, t)
    ensures TaskReplacement(t, o).Ok? ==> TaskReplacement(t, o).value.AsRef() == t.AsRef().(revision := t.revision + 1)
  {
  }

  lemma {:induction false} ReplaceEntersIff(w: Work, o: Operation, t: Task)
    requires WorkOk(w) && LiveIsNewest(w) && ActiveTaskById(w, o.taskId) == Ok(t)
    requires o.op.ReplacePendingTask? || o.op.SetExecutorPolicy? || o.op.SupersedeCompletedTask?
    ensures Enter(w, o).Ok? <==>
      o.expectedRevision == Some(t.revision) && t.status == (if o.op.SupersedeCompletedTask? then Completed else Pending) && Carries(o, t)
  {
    LiveMeans(w, TaskItem(t));
    ReplacementIff(t, o);
    if TaskReplacement(t, o).Ok? {
      NextRevisionNew(w, TaskItem(t), TaskItem(TaskReplacement(t, o).value));
      TaskKnownIff(w, TaskReplacement(t, o).value);
    }
  }

  lemma {:induction false} ReplaceTaskIff(w: Work, o: Operation)
    requires WorkOk(w) && LiveIsNewest(w) && (o.op.ReplacePendingTask? || o.op.SetExecutorPolicy? || o.op.SupersedeCompletedTask?)
    ensures Enter(w, o).Ok? <==> Applicable(w, o)
  {
    forall t ensures Targets(w, o, t) <==> ActiveTaskById(w, o.taskId) == Ok(t) && o.expectedRevision == Some(t.revision) { NamedIff(w, o, t); }
    if ActiveTaskById(w, o.taskId).Ok? { ReplaceEntersIff(w, o, ActiveTaskById(w, o.taskId).value); }
  }

  lemma {:induction false} ReplaceGroupIff(w: Work, o: Operation)
    requires WorkOk(w) && LiveIsNewest(w) && o.op.ReplacePendingGroup?
    ensures Enter(w, o).Ok? <==> Applicable(w, o)
  {
    forall g ensures TargetsGroup(w, o, g) <==> ActiveGroupById(w, o.groupId) == Ok(g) && o.expectedRevision == Some(g.revision) { NamedGroupIff(w, o, g); }
    if ActiveGroupById(w, o.groupId).Ok? && o.group.Some? {
      var g, r := ActiveGroupById(w, o.groupId).value, o.group.value;
      LiveMeans(w, GroupItem(g));
      GroupKnownIff(w, r);
      if r.id == g.id && r.revision == g.revision + 1 { NextRevisionNew(w, GroupItem(g), GroupItem(r)); }
    }
  }

  lemma {:induction false} AppendAllIff(w: Work, ts: seq<Task>)
    ensures AppendTasks(w, ts).Ok? <==> Distinct(RefsOf(TaskItems(ts))) && forall t :: t in ts ==> !HasTask(w.tasks, t.AsRef())
    decreases |ts|
  {
    if ts != [] {
      var refs := RefsOf(TaskItems(ts));
      assert ts == [ts[0]] + ts[1..] && refs == [ts[0].AsRef()] + RefsOf(TaskItems(ts[1..]));
      if !HasTask(w.tasks, ts[0].AsRef()) {
        var w1 := AppendTask(w, ts[0]).value;
        AppendAllIff(w1, ts[1..]);
        forall t | t in ts[1..] ensures HasTask(w1.tasks, t.AsRef()) <==> HasTask(w.tasks, t.AsRef()) || t.AsRef() == ts[0].AsRef() {
          HasOneMore(w.tasks, ts[0], t.AsRef());
        }
        DistinctHead(ts);
      }
    }
  }

  lemma {:induction false} HasOneMore(tasks: seq<Task>, t: Task, ref: Ref)
    ensures HasTask(tasks + [t], ref) <==> HasTask(tasks, ref) || ref == t.AsRef()
  {
    if HasTask(tasks, ref) { var k :| 0 <= k < |tasks| && tasks[k].AsRef() == ref; assert (tasks + [t])[k].AsRef() == ref; }
    assert (tasks + [t])[|tasks|] == t;
  }

  lemma {:induction false} DistinctHead(ts: seq<Task>)
    requires ts != []
    ensures Distinct(RefsOf(TaskItems(ts))) <==>
      Distinct(RefsOf(TaskItems(ts[1..]))) && forall t :: t in ts[1..] ==> t.AsRef() != ts[0].AsRef()
  {
    var refs, rest := RefsOf(TaskItems(ts)), RefsOf(TaskItems(ts[1..]));
    assert refs == [ts[0].AsRef()] + rest;
    forall k | 0 <= k < |rest| ensures rest[k] == ts[1..][k].AsRef() && refs[k + 1] == rest[k] {}
    if Distinct(refs) {
      forall i, j | 0 <= i < j < |rest| ensures rest[i] != rest[j] { assert refs[i + 1] != refs[j + 1]; }
      forall t | t in ts[1..] ensures t.AsRef() != ts[0].AsRef() {
        var k :| 0 <= k < |ts[1..]| && ts[1..][k] == t;
        assert refs[0] != refs[k + 1];
      }
    }
  }

  lemma {:induction false} SameSets(a: seq<Ref>, b: seq<Ref>)
    ensures Elements(a) == Elements(b) <==> forall r :: r in a <==> r in b
  {
    forall r ensures (r in Elements(a) <==> r in a) && (r in Elements(b) <==> r in b) {}
  }

  lemma {:induction false} CancelledLists(w: Work, t: Task, ref: Ref)
    requires t in w.tasks
    ensures HasTask(Cancel(w, t).tasks, ref) <==> HasTask(w.tasks, ref)
  {
    var w1 := Cancel(w, t);
    if HasTask(w.tasks, ref) { var k :| 0 <= k < |w.tasks| && w.tasks[k].AsRef() == ref; assert w1.tasks[k].AsRef() == ref; }
    if HasTask(w1.tasks, ref) { var k :| 0 <= k < |w1.tasks| && w1.tasks[k].AsRef() == ref; assert w.tasks[k].AsRef() == ref; }
  }

  lemma {:induction false} ExpandedIff(w: Work, t: Task, g: Group, children: seq<Task>)
    requires t in w.tasks
    ensures Expanded(w, t, g, children).Ok? <==>
      Distinct(RefsOf(TaskItems(children))) && forall r :: r in RefsOf(TaskItems(children)) ==> !Known(w, r)
  {
    var w1 := AppendGroup(Cancel(w, t), g);
    AppendAllIff(w1, children);
    var refs := RefsOf(TaskItems(children));
    forall c | c in children ensures c.AsRef() in refs && (HasTask(w1.tasks, c.AsRef()) <==> Known(w, c.AsRef())) {
      var k :| 0 <= k < |children| && children[k] == c;
      assert refs[k] == c.AsRef();
      CancelledLists(w, t, c.AsRef());
      TaskKnownIff(w, c);
    }
    forall r | r in refs ensures exists c :: c in children && c.AsRef() == r {
      var k :| 0 <= k < |refs| && refs[k] == r;
      assert children[k] in children && children[k].AsRef() == r;
    }
  }

  lemma {:induction false} ExpandEntersIff(w: Work, o: Operation, t: Task)
    requires ActiveTaskById(w, o.taskId) == Ok(t) && o.op.ExpandTask? && o.group.Some?
    ensures Enter(w, o).Ok? <==> o.expectedRevision == Some(t.revision) && Expands(w, o, t, o.group.value)
  {
    var g := o.group.value;
    ExpandedIff(w, t, g, o.childTasks);
    GroupKnownIff(w, g);
    SameSets(ChildRefs(g.children), RefsOf(TaskItems(o.childTasks)));
  }

  lemma {:induction false} ExpandIff(w: Work, o: Operation)
    requires WorkOk(w) && LiveIsNewest(w) && o.op.ExpandTask?
    ensures Enter(w, o).Ok? <==> Applicable(w, o)
  {
    forall t ensures Targets(w, o, t) <==> ActiveTaskById(w, o.taskId) == Ok(t) && o.expectedRevision == Some(t.revision) { NamedIff(w, o, t); }
    if ActiveTaskById(w, o.taskId).Ok? && o.group.Some? { ExpandEntersIff(w, o, ActiveTaskById(w, o.taskId).value); }
  }

  /** Where the active revisions are the newest, the edit of an operation is accepted exactly when it is applicable. */
  lemma {:induction false} EnterIff(w: Work, o: Operation)
    requires WorkOk(w) && LiveIsNewest(w)
    ensures Enter(w, o).Ok? <==> Applicable(w, o)
  {
    match o.op
    case AddTask => AddIff(w, o);
    case AddRepairTask => AddIff(w, o);
    case AddVerificationTask => AddIff(w, o);
    case AddGroup => AddIff(w, o);
    case ReplaceDependencies => ReviseIff(w, o);
    case SetPriority => ReviseIff(w, o);
    case CancelPendingTask => ReviseIff(w, o);
    case ReplacePendingTask => ReplaceTaskIff(w, o);
    case SetExecutorPolicy => ReplaceTaskIff(w, o);
    case SupersedeCompletedTask => ReplaceTaskIff(w, o);
    case ReplacePendingGroup => ReplaceGroupIff(w, o);
    case ExpandTask => ExpandIff(w, o);
    case OtherOperation =>
  }

  // ---------------------------------------------------------------- no revision is listed twice

  lemma {:induction false} TaskAddedUnique(tasks: seq<Task>, t: Task)
    requires UniqueRefs(TaskItems(tasks))
    ensures UniqueRefs(TaskItems(tasks + [t])) <==> !HasTask(tasks, t.AsRef())
  {
    assert TaskItems(tasks + [t]) == TaskItems(tasks) + [TaskItem(t)];
    HasTaskIsHasRef(tasks, t.AsRef());
    if HasTask(tasks, t.AsRef()) {
      var k :| 0 <= k < |tasks| && tasks[k].AsRef() == t.AsRef();
      assert TaskItems(tasks + [t])[k].AsRef() == TaskItems(tasks + [t])[|tasks|].AsRef();
    } else {
      AppendUnique(TaskItems(tasks), TaskItem(t));
    }
  }

  lemma {:induction false} GroupAddedUnique(groups: seq<Group>, g: Group)
    requires UniqueRefs(GroupItems(groups)) && !HasGroup(groups, g.AsRef())
    ensures UniqueRefs(GroupItems(groups + [g]))
  {
    assert GroupItems(groups + [g]) == GroupItems(groups) + [GroupItem(g)];
    HasGroupIsHasRef(groups, g.AsRef());
    AppendUnique(GroupItems(groups), GroupItem(g));
  }

  lemma {:induction false} TasksAddedUnique(w: Work, ts: seq<Task>)
    requires UniqueWork(w) && AppendTasks(w, ts).Ok?
    ensures UniqueWork(AppendTasks(w, ts).value)
    decreases |ts|
  {
    if ts != [] {
      TaskAddedUnique(w.tasks, ts[0]);
      TasksAddedUnique(AppendTask(w, ts[0]).value, ts[1..]);
    }
  }

  /** Every accepted edit keeps all revisions different, except that `replace_dependencies` and `set_priority` do not look
      whether the next revision is listed: they do so exactly when it is not. */
  lemma {:induction false} EnterKeepsUnique(w: Work, o: Operation)
    requires UniqueWork(w) && Enter(w, o).Ok?
    ensures o.op.ReplaceDependencies? || o.op.SetPriority? ==>
      var t := ActiveTaskById(w, o.taskId).value; UniqueWork(Enter(w, o).value) <==> !HasTask(w.tasks, t.AsRef().(revision := t.revision + 1))
    ensures !o.op.ReplaceDependencies? && !o.op.SetPriority? ==> UniqueWork(Enter(w, o).value)
  {
    match o.op
    case AddTask => TaskAddedUnique(w.tasks, o.task.value);
    case AddRepairTask => TaskAddedUnique(w.tasks, o.task.value);
    case AddVerificationTask => TaskAddedUnique(w.tasks, o.task.value);
    case AddGroup => GroupAddedUnique(w.groups, o.group.value);
    case ReplaceDependencies => ReviseUnique(w, o);
    case SetPriority => ReviseUnique(w, o);
    case ReplacePendingTask => ReplaceUnique(w, o);
    case SetExecutorPolicy => ReplaceUnique(w, o);
    case SupersedeCompletedTask => ReplaceUnique(w, o);
    case ReplacePendingGroup => GroupAddedUnique(w.groups, o.group.value);
    case CancelPendingTask => CancelUnique(w, ActiveTaskById(w, o.taskId).value);
    case ExpandTask => ExpandUnique(w, o);
  }

  lemma {:induction false} ReviseUnique(w: Work, o: Operation)
    requires UniqueWork(w) && (o.op.ReplaceDependencies? || o.op.SetPriority?) && Enter(w, o).Ok?
    ensures var t := ActiveTaskById(w, o.taskId).value; UniqueWork(Enter(w, o).value) <==> !HasTask(w.tasks, t.AsRef().(revision := t.revision + 1))
  {
    var t := ReviseEnters(w, o);
    TaskAddedUnique(w.tasks, RevisionAsked(t, o));
  }

  lemma {:induction false} ReplaceUnique(w: Work, o: Operation)
    requires UniqueWork(w) && (o.op.ReplacePendingTask? || o.op.SetExecutorPolicy? || o.op.SupersedeCompletedTask?) && Enter(w, o).Ok?
    ensures UniqueWork(Enter(w, o).value)
  {
    TaskAddedUnique(w.tasks, TaskReplacement(ActiveTaskById(w, o.taskId).value, o).value);
  }

  lemma {:induction false} CancelUnique(w: Work, t: Task)
    requires UniqueWork(w)
    ensures UniqueWork(Cancel(w, t))
  {
    SameRefsSameKnown(TaskItems(w.tasks), TaskItems(Cancel(w, t).tasks));
  }

  lemma {:induction false} ExpandUnique(w: Work, o: Operation)
    requires UniqueWork(w) && o.op.ExpandTask? && Enter(w, o).Ok?
    ensures UniqueWork(Enter(w, o).value)
  {
    var t, g := ExpandEnters(w, o);
    ExpandChecks(w, o, t);
    CancelUnique(w, t);
    GroupAddedUnique(w.groups, g);
    TasksAddedUnique(AppendGroup(Cancel(w, t), g), o.childTasks);
  }

  lemma {:induction false} ExpandChecks(w: Work, o: Operation, t: Task)
    requires o.op.ExpandTask? && Enter(w, o).Ok? && ActiveTaskById(w, o.taskId) == Ok(t)
    ensures o.group.Some? && !HasGroup(w.groups, o.group.value.AsRef())
  {
  }

  /** The operation ends without raising, within some number of rounds. */
  ghost predicate Succeeds(w: Work, o: Operation) {
    exists rounds: nat :: ApplyOne(w, o, rounds).Done?
  }

  /** Exactly when an operation on tidy lists succeeds, worklist included: it is applicable, and where it queues a
      rewrite no chain of pending dependents, its new dependencies included, comes back to an item, and it does
      not expand the child of a pending Group. */
  lemma {:induction false} OperationSucceedsIff(w: Work, o: Operation, future: set<Ref>)
    requires Tidy(w, future + RefSet(Adds(o))) && w.queue == [] && SoundOperation(o)
    requires IdsApart(o, future) && Lists(w, o, future + RefSet(Adds(o)))
    ensures Succeeds(w, o) <==>
      && Applicable(w, o)
      && (Enter(w, o).Ok? ==> var w1 := Enter(w, o).value;
            w1.queue == [] || (StartOk(w1) && NoWalkRevisits(w1) && !(o.op.ExpandTask? && ChildStands(w1))))
  {
    EnterIff(w, o);
    assert w.(queue := []) == w;
    if Enter(w, o).Ok? {
      OperationFinishesIff(w, o, future);
      ApplyIsRun(w, o);
      SucceedsWhen(w, o);
    }
  }

  lemma {:induction false} SucceedsWhen(w: Work, o: Operation)
    ensures Succeeds(w, o) ==> Finishes(w, o)
    ensures Finishes(w, o) && (forall rounds: nat :: !ApplyOne(w, o, rounds).Raised?) ==> Succeeds(w, o)
    ensures Finishes(w, o) && (forall rounds: nat :: rounds > 0 ==> ApplyOne(w, o, rounds).Raised?) && ApplyOne(w, o, 0) == Unfinished ==> !Succeeds(w, o)
  {
    if Finishes(w, o) {
      var rounds: nat :| ApplyOne(w, o, rounds) != Unfinished;
      assert ApplyOne(w, o, rounds).Done? || ApplyOne(w, o, rounds).Raised?;
    }
  }
}
