/** What no patch can destroy: history only grows, finished work stays active, and an active item's logical id
    stays active unless an operation removes it by name. */
module PatchConserves {
  import opened Core
  import opened Items
  import opened Rewrite
  import opened RewritePass
  import opened Validation
  import opened Ready
  import opened Patch

  /** Old Tasks keep their positions; the only change is that a pending one may have been cancelled. */
  ghost predicate Kept(before: seq<Task>, after: seq<Task>) {
    |before| <= |after| && forall i :: 0 <= i < |before| ==> KeptAs(before[i], after[i])
  }

  ghost predicate KeptAs(t: Task, t': Task) {
    t' == t || (t.status == Pending && t' == t.(status := Cancelled))
  }

  /** Active Tasks that are not pending stay active, except completed ones with an id in `superseded`. */
  ghost predicate WorkStays(w: Work, w': Work, superseded: set<string>) {
    && (forall t :: t in w.tasks && t.AsRef() in w.activeTasks && t.status != Pending && !(t.status == Completed && t.id in superseded) ==>
          t.AsRef() in w'.activeTasks)
    && (forall g :: g in w.groups && g.AsRef() in w.activeGroups && g.status != Pending ==> g.AsRef() in w'.activeGroups)
  }

  ghost predicate HasLogical(refs: seq<Ref>, id: LogicalId) {
    exists r :: r in refs && r.Logical() == id
  }

  /** Active logical ids stay active, except Tasks with an id in `removed`. */
  ghost predicate IdsStay(w: Work, w': Work, removed: set<string>) {
    && (forall r :: r in w.activeTasks && r.id !in removed ==> HasLogical(w'.activeTasks, r.Logical()))
    && (forall r :: r in w.activeGroups ==> HasLogical(w'.activeGroups, r.Logical()))
  }

  ghost predicate Conserves(w: Work, w': Work, superseded: set<string>, removed: set<string>) {
    Kept(w.tasks, w'.tasks) && w.groups <= w'.groups && WorkStays(w, w', superseded) && IdsStay(w, w', removed)
  }

  ghost predicate UniqueTasks(w: Work) { UniqueRefs(TaskItems(w.tasks)) }

  lemma {:induction false} ConservesNothing(w: Work)
    ensures Conserves(w, w, {}, {})
  {
  }

  lemma {:induction false} ConservesThen(a: Work, b: Work, c: Work, s1: set<string>, r1: set<string>, s2: set<string>, r2: set<string>)
    requires Conserves(a, b, s1, r1) && Conserves(b, c, s2, r2)
    ensures Conserves(a, c, s1 + s2, r1 + r2)
  {
  }

  // ---------------------------------------------------------------- one revision

  lemma {:induction false} ReplaceRefKeeps(refs: seq<Ref>, e: Entry)
    ensures forall r :: r in refs && r != e.source ==> r in ReplaceRef(refs, e)
    ensures e.source.Logical() == e.target.Logical() ==> forall r :: r in refs ==> HasLogical(ReplaceRef(refs, e), r.Logical())
  {
    forall r | r in refs ensures Substitute(e, r) in ReplaceRef(refs, e) {
      var i :| 0 <= i < |refs| && refs[i] == r;
      assert ReplaceRef(refs, e)[i] == Substitute(e, r);
    }
  }

  lemma {:induction false} SameRefSameGroup(groups: seq<Group>, a: Group, b: Group)
    requires UniqueRefs(GroupItems(groups)) && a in groups && b in groups && a.AsRef() == b.AsRef()
    ensures a == b
  {
    var i :| 0 <= i < |groups| && groups[i] == a;
    var j :| 0 <= j < |groups| && groups[j] == b;
    assert GroupItems(groups)[i].AsRef() == GroupItems(groups)[j].AsRef();
  }

  /** A Task is superseded by one with its logical id. */
  lemma {:induction false} TaskSupersededConserves(w: Work, t: Task, r: Task, w': Work, superseded: set<string>)
    requires UniqueTasks(w) && t in w.tasks && r.id == t.id
    requires t.status == Pending || (t.status == Completed && t.id in superseded)
    requires w'.tasks == w.tasks + [r] && w'.activeTasks == ReplaceRef(w.activeTasks, Entry(t.AsRef(), r.AsRef()))
    requires w'.groups == w.groups && w'.activeGroups == w.activeGroups
    ensures Conserves(w, w', superseded, {})
  {
    ReplaceRefKeeps(w.activeTasks, Entry(t.AsRef(), r.AsRef()));
    assert WorkStays(w, w', superseded) by {
      forall s | s in w.tasks && s.AsRef() in w.activeTasks && s.status != Pending && !(s.status == Completed && s.id in superseded)
        ensures s.AsRef() in w'.activeTasks
      {
        if s.AsRef() == t.AsRef() { SameRefSameTask(w.tasks, s, t); }
      }
    }
    assert IdsStay(w, w', {}) by {
      forall g | g in w.activeGroups ensures HasLogical(w'.activeGroups, g.Logical()) {}
    }
  }

  lemma {:induction false} GroupSupersededConserves(w: Work, g: Group, r: Group, w': Work)
    requires UniqueRefs(GroupItems(w.groups)) && g in w.groups && r.id == g.id && g.status == Pending
    requires w'.tasks == w.tasks && w'.activeTasks == w.activeTasks
    requires w'.groups == w.groups + [r] && w'.activeGroups == ReplaceRef(w.activeGroups, Entry(g.AsRef(), r.AsRef()))
    ensures Conserves(w, w', {}, {})
  {
    ReplaceRefKeeps(w.activeGroups, Entry(g.AsRef(), r.AsRef()));
    assert WorkStays(w, w', {}) by {
      forall s | s in w.groups && s.AsRef() in w.activeGroups && s.status != Pending ensures s.AsRef() in w'.activeGroups {
        if s.AsRef() == g.AsRef() { SameRefSameGroup(w.groups, s, g); }
      }
    }
    assert IdsStay(w, w', {}) by {
      forall t | t in w.activeTasks ensures HasLogical(w'.activeTasks, t.Logical()) {}
    }
  }

  // ---------------------------------------------------------------- the worklist

  ghost predicate UniqueWork(w: Work) { UniqueTasks(w) && UniqueRefs(GroupItems(w.groups)) }

  lemma {:induction false} AppendUnique(items: seq<Item>, m: Item)
    requires UniqueRefs(items) && !HasRef(items, m.AsRef())
    ensures UniqueRefs(items + [m])
  {
  }

  lemma {:induction false} VisitTaskConserves(t: Task, live: set<Ref>, w: Work, e: Entry)
    requires UniqueWork(w) && t in w.tasks && VisitTask(t, live, w, e).Ok?
    ensures var w' := VisitTask(t, live, w, e).value; Conserves(w, w', {}, {}) && UniqueWork(w')
  {
    if TaskHit(t, live, e) {
      var r, w' := RevisedTask(t, e), VisitTask(t, live, w, e).value;
      TaskSupersededConserves(w, t, r, w', {});
      HasTaskIsHasRef(w.tasks, r.AsRef());
      AppendUnique(TaskItems(w.tasks), TaskItem(r));
      assert TaskItems(w.tasks + [r]) == TaskItems(w.tasks) + [TaskItem(r)];
    } else {
      ConservesNothing(w);
    }
  }

  lemma {:induction false} VisitGroupConserves(g: Group, live: set<Ref>, w: Work, e: Entry)
    requires UniqueWork(w) && g in w.groups && VisitGroup(g, live, w, e).Ok?
    ensures var w' := VisitGroup(g, live, w, e).value; Conserves(w, w', {}, {}) && UniqueWork(w')
  {
    if GroupHit(g, live, e) {
      var r, w' := RevisedGroup(g, e), VisitGroup(g, live, w, e).value;
      GroupSupersededConserves(w, g, r, w');
      HasGroupIsHasRef(w.groups, r.AsRef());
      AppendUnique(GroupItems(w.groups), GroupItem(r));
      assert GroupItems(w.groups + [r]) == GroupItems(w.groups) + [GroupItem(r)];
    } else {
      ConservesNothing(w);
    }
  }

  lemma {:induction false} TaskPassConserves(todo: seq<Task>, live: set<Ref>, w: Work, e: Entry)
    requires UniqueWork(w) && TaskPass(todo, live, w, e).Ok? && forall t :: t in todo ==> t in w.tasks
    ensures var w' := TaskPass(todo, live, w, e).value; Conserves(w, w', {}, {}) && UniqueWork(w')
    decreases |todo|
  {
    if todo == [] {
      ConservesNothing(w);
    } else {
      VisitTaskConserves(todo[0], live, w, e);
      var w1 := VisitTask(todo[0], live, w, e).value;
      forall t | t in todo[1..] ensures t in w1.tasks { assert t in todo; assert w.tasks <= w1.tasks; }
      TaskPassConserves(todo[1..], live, w1, e);
      ConservesThen(w, w1, TaskPass(todo, live, w, e).value, {}, {}, {}, {});
    }
  }

  lemma {:induction false} GroupPassConserves(todo: seq<Group>, live: set<Ref>, w: Work, e: Entry)
    requires UniqueWork(w) && GroupPass(todo, live, w, e).Ok? && forall g :: g in todo ==> g in w.groups
    ensures var w' := GroupPass(todo, live, w, e).value; Conserves(w, w', {}, {}) && UniqueWork(w')
    decreases |todo|
  {
    if todo == [] {
      ConservesNothing(w);
    } else {
      VisitGroupConserves(todo[0], live, w, e);
      var w1 := VisitGroup(todo[0], live, w, e).value;
      forall g | g in todo[1..] ensures g in w1.groups { assert g in todo; assert w.groups <= w1.groups; }
      GroupPassConserves(todo[1..], live, w1, e);
      ConservesThen(w, w1, GroupPass(todo, live, w, e).value, {}, {}, {}, {});
    }
  }

  ghost predicate ConservedSoFar(w0: Work, w: Work) {
    Conserves(w0, w, {}, {}) && UniqueWork(w)
  }

  lemma {:induction false} RoundConserves(w0: Work, w: Work, w': Work)
    requires ConservedSoFar(w0, w) && Follows(w, w')
    ensures ConservedSoFar(w0, w')
  {
    var e, w1 := w.queue[0], w.(queue := w.queue[1..]);
    TaskPassConserves(w1.tasks, Elements(w1.activeTasks), w1, e);
    var w2 := TaskPass(w1.tasks, Elements(w1.activeTasks), w1, e).value;
    GroupPassConserves(w2.groups, Elements(w2.activeGroups), w2, e);
    ConservesThen(w1, w2, w', {}, {}, {}, {});
    assert Conserves(w, w', {}, {});
    ConservesThen(w0, w, w', {}, {}, {}, {});
  }

  lemma {:induction false} RunConserves(w: Work, rounds: nat, end: Work)
    requires UniqueWork(w) && RunRounds(w, rounds) == Done(end)
    ensures Conserves(w, end, {}, {}) && UniqueWork(end)
  {
    ConservesNothing(w);
    forall a, b | ConservedSoFar(w, a) && Follows(a, b) ensures ConservedSoFar(w, b) { RoundConserves(w, a, b); }
    RunKeeps(a => ConservedSoFar(w, a), w, rounds, end);
  }

  // ---------------------------------------------------------------- the lists only grow

  ghost predicate Grows(w: Work, w': Work) {
    && |w.tasks| <= |w'.tasks| && (forall i :: 0 <= i < |w.tasks| ==> w'.tasks[i].AsRef() == w.tasks[i].AsRef())
    && w.groups <= w'.groups
  }

  /** Duplicates are never repaired, so lists that grew into unique ones were unique. */
  lemma {:induction false} UniqueBefore(w: Work, w': Work)
    requires Grows(w, w') && UniqueWork(w')
    ensures UniqueWork(w)
  {
    forall i, j | 0 <= i < j < |w.tasks| ensures TaskItems(w.tasks)[i].AsRef() != TaskItems(w.tasks)[j].AsRef() {
      assert TaskItems(w'.tasks)[i].AsRef() != TaskItems(w'.tasks)[j].AsRef();
    }
    forall i, j | 0 <= i < j < |w.groups| ensures GroupItems(w.groups)[i].AsRef() != GroupItems(w.groups)[j].AsRef() {
      assert GroupItems(w'.groups)[i].AsRef() != GroupItems(w'.groups)[j].AsRef();
    }
  }

  lemma {:induction false} TaskPassGrows(todo: seq<Task>, live: set<Ref>, w: Work, e: Entry)
    requires TaskPass(todo, live, w, e).Ok?
    ensures Grows(w, TaskPass(todo, live, w, e).value)
    decreases |todo|
  {
    if todo != [] { TaskPassGrows(todo[1..], live, VisitTask(todo[0], live, w, e).value, e); }
  }

  lemma {:induction false} GroupPassGrows(todo: seq<Group>, live: set<Ref>, w: Work, e: Entry)
    requires GroupPass(todo, live, w, e).Ok?
    ensures Grows(w, GroupPass(todo, live, w, e).value)
    decreases |todo|
  {
    if todo != [] { GroupPassGrows(todo[1..], live, VisitGroup(todo[0], live, w, e).value, e); }
  }

  lemma {:induction false} RoundGrows(w: Work, w': Work)
    requires Follows(w, w')
    ensures Grows(w, w')
  {
    var e, w1 := w.queue[0], w.(queue := w.queue[1..]);
    TaskPassGrows(w1.tasks, Elements(w1.activeTasks), w1, e);
    var w2 := TaskPass(w1.tasks, Elements(w1.activeTasks), w1, e).value;
    GroupPassGrows(w2.groups, Elements(w2.activeGroups), w2, e);
  }

  lemma {:induction false} RunGrows(w: Work, rounds: nat, end: Work)
    requires RunRounds(w, rounds) == Done(end)
    ensures Grows(w, end)
  {
    forall a, b | Grows(w, a) && Follows(a, b) ensures Grows(w, b) { RoundGrows(a, b); }
    RunKeeps(a => Grows(w, a), w, rounds, end);
  }

  lemma {:induction false} AppendTasksGrows(w: Work, ts: seq<Task>)
    requires AppendTasks(w, ts).Ok?
    ensures Grows(w, AppendTasks(w, ts).value)
    decreases |ts|
  {
    if ts != [] { AppendTasksGrows(AppendTask(w, ts[0]).value, ts[1..]); }
  }

  lemma {:induction false} EnterGrows(w: Work, o: Operation)
    requires Enter(w, o).Ok?
    ensures Grows(w, Enter(w, o).value)
  {
    match o.op
    case ExpandTask => EnterExpandGrows(w, o);
    case ReplacePendingTask => EnterReplaceTaskGrows(w, o);
    case SetExecutorPolicy => EnterReplaceTaskGrows(w, o);
    case SupersedeCompletedTask => EnterReplaceTaskGrows(w, o);
    case ReplacePendingGroup => EnterReplaceGroupGrows(w, o);
    case _ =>
  }

  lemma {:induction false} EnterReplaceTaskGrows(w: Work, o: Operation)
    requires EnterReplaceTask(w, o).Ok?
    ensures Grows(w, EnterReplaceTask(w, o).value)
  {
  }

  lemma {:induction false} EnterReplaceGroupGrows(w: Work, o: Operation)
    requires EnterReplaceGroup(w, o).Ok?
    ensures Grows(w, EnterReplaceGroup(w, o).value)
  {
  }

  lemma {:induction false} EnterExpandGrows(w: Work, o: Operation)
    requires EnterExpand(w, o).Ok?
    ensures Grows(w, EnterExpand(w, o).value)
  {
    var t := ActiveTaskById(w, o.taskId).value;
    AppendTasksGrows(AppendGroup(Cancel(w, t), o.group.value), o.childTasks);
  }

  // ---------------------------------------------------------------- one operation

  function Superseded(o: Operation): set<string> {
    if o.op.SupersedeCompletedTask? && o.taskId.Some? then {o.taskId.value} else {}
  }

  function Removed(o: Operation): set<string> {
    if (o.op.CancelPendingTask? || o.op.ExpandTask?) && o.taskId.Some? then {o.taskId.value} else {}
  }

  lemma {:induction false} AppendTaskConserves(w: Work, t: Task)
    requires AppendTask(w, t).Ok?
    ensures Conserves(w, AppendTask(w, t).value, {}, {})
  {
  }

  lemma {:induction false} AppendTasksConserves(w: Work, ts: seq<Task>)
    requires AppendTasks(w, ts).Ok?
    ensures Conserves(w, AppendTasks(w, ts).value, {}, {})
    decreases |ts|
  {
    if ts == [] {
      ConservesNothing(w);
    } else {
      AppendTaskConserves(w, ts[0]);
      AppendTasksConserves(AppendTask(w, ts[0]).value, ts[1..]);
      ConservesThen(w, AppendTask(w, ts[0]).value, AppendTasks(w, ts).value, {}, {}, {}, {});
    }
  }

  lemma {:induction false} AppendGroupConserves(w: Work, g: Group)
    ensures Conserves(w, AppendGroup(w, g), {}, {})
  {
  }

  lemma {:induction false} CancelConserves(w: Work, t: Task)
    requires UniqueTasks(w) && t in w.tasks && t.status == Pending
    ensures Conserves(w, Cancel(w, t), {}, {t.id})
  {
    var w' := Cancel(w, t);
    assert Kept(w.tasks, w'.tasks) by {
      forall i | 0 <= i < |w.tasks| ensures KeptAs(w.tasks[i], w'.tasks[i]) {
        if w.tasks[i].AsRef() == t.AsRef() { SameRefSameTask(w.tasks, w.tasks[i], t); }
      }
    }
    assert WorkStays(w, w', {}) by {
      forall s | s in w.tasks && s.AsRef() in w.activeTasks && s.status != Pending ensures s.AsRef() in w'.activeTasks {
        if s.AsRef() == t.AsRef() { SameRefSameTask(w.tasks, s, t); }
      }
    }
    assert IdsStay(w, w', {t.id}) by {
      forall r | r in w.activeTasks && r.id != t.id ensures HasLogical(w'.activeTasks, r.Logical()) { assert r in w'.activeTasks; }
      forall r | r in w.activeGroups ensures HasLogical(w'.activeGroups, r.Logical()) {}
    }
  }

  lemma {:induction false} EnterExpandConserves(w: Work, o: Operation)
    requires o.op.ExpandTask? && EnterExpand(w, o).Ok? && UniqueTasks(w)
    ensures Conserves(w, EnterExpand(w, o).value, {}, Removed(o))
  {
    var t, g := ActiveTaskById(w, o.taskId).value, o.group.value;
    ExpandedConserves(w, t, g, o.childTasks);
    assert Removed(o) == {t.id};
    var w2 := AppendTasks(AppendGroup(Cancel(w, t), g), o.childTasks).value;
    assert EnterExpand(w, o).value == w2.(queue := [Entry(t.AsRef(), g.AsRef())]);
  }

  lemma {:induction false} ExpandedConserves(w: Work, t: Task, g: Group, children: seq<Task>)
    requires UniqueTasks(w) && t in w.tasks && t.status == Pending
    requires AppendTasks(AppendGroup(Cancel(w, t), g), children).Ok?
    ensures Conserves(w, AppendTasks(AppendGroup(Cancel(w, t), g), children).value, {}, {t.id})
  {
    var w1 := Cancel(w, t);
    var w2 := AppendGroup(w1, g);
    CancelConserves(w, t);
    AppendGroupConserves(w1, g);
    ConservesThen(w, w1, w2, {}, {t.id}, {}, {});
    AppendTasksConserves(w2, children);
    ConservesThen(w, w2, AppendTasks(w2, children).value, {}, {t.id}, {}, {});
    var none: set<string> := {};
    assert {t.id} + none + none == {t.id} && none + none + none == none;
  }

  lemma {:induction false} EnterReviseConserves(w: Work, o: Operation)
    requires (o.op.ReplaceDependencies? || o.op.SetPriority?) && EnterRevise(w, o).Ok? && UniqueWork(w)
    ensures Conserves(w, EnterRevise(w, o).value, {}, {})
  {
    var t := ActiveTaskById(w, o.taskId).value;
    var w' := EnterRevise(w, o).value;
    TaskSupersededConserves(w, t, w'.tasks[|w.tasks|], w', {});
  }

  lemma {:induction false} EnterReplaceTaskConserves(w: Work, o: Operation)
    requires EnterReplaceTask(w, o).Ok? && UniqueWork(w)
    ensures Conserves(w, EnterReplaceTask(w, o).value, Superseded(o), {})
  {
    var t := ActiveTaskById(w, o.taskId).value;
    var w' := EnterReplaceTask(w, o).value;
    TaskSupersededConserves(w, t, w'.tasks[|w.tasks|], w', Superseded(o));
  }

  lemma {:induction false} EnterReplaceGroupConserves(w: Work, o: Operation)
    requires EnterReplaceGroup(w, o).Ok? && UniqueWork(w)
    ensures Conserves(w, EnterReplaceGroup(w, o).value, {}, {})
  {
    var g := ActiveGroupById(w, o.groupId).value;
    var w' := EnterReplaceGroup(w, o).value;
    GroupSupersededConserves(w, g, w'.groups[|w.groups|], w');
  }

  lemma {:induction false} EnterConserves(w: Work, o: Operation)
    requires Enter(w, o).Ok? && UniqueWork(Enter(w, o).value)
    ensures Conserves(w, Enter(w, o).value, Superseded(o), Removed(o))
  {
    EnterGrows(w, o);
    UniqueBefore(w, Enter(w, o).value);
    match o.op
    case AddTask => AppendTaskConserves(w, o.task.value);
    case AddRepairTask => AppendTaskConserves(w, o.task.value);
    case AddVerificationTask => AppendTaskConserves(w, o.task.value);
    case AddGroup => AppendGroupConserves(w, o.group.value);
    case ReplaceDependencies => EnterReviseConserves(w, o);
    case SetPriority => EnterReviseConserves(w, o);
    case ReplacePendingTask => EnterReplaceTaskConserves(w, o);
    case SetExecutorPolicy => EnterReplaceTaskConserves(w, o);
    case SupersedeCompletedTask => EnterReplaceTaskConserves(w, o);
    case ReplacePendingGroup => EnterReplaceGroupConserves(w, o);
    case CancelPendingTask => CancelConserves(w, ActiveTaskById(w, o.taskId).value);
    case ExpandTask => EnterExpandConserves(w, o);
  }

  // ---------------------------------------------------------------- the whole patch

  function SupersededBy(ops: seq<Operation>): set<string> {
    if ops == [] then {} else Superseded(ops[0]) + SupersededBy(ops[1..])
  }

  function RemovedBy(ops: seq<Operation>): set<string> {
    if ops == [] then {} else Removed(ops[0]) + RemovedBy(ops[1..])
  }

  lemma {:induction false} ApplyOneGrows(w: Work, o: Operation, rounds: nat)
    requires ApplyOne(w, o, rounds).Done?
    ensures Grows(w, ApplyOne(w, o, rounds).work)
  {
    var w1 := Enter(w.(queue := []), o).value;
    EnterGrows(w.(queue := []), o);
    RunGrows(w1, rounds, ApplyOne(w, o, rounds).work);
  }

  lemma {:induction false} ApplyAllGrows(w: Work, ops: seq<Operation>, rounds: nat)
    requires ApplyAll(w, ops, rounds).Done?
    ensures Grows(w, ApplyAll(w, ops, rounds).work)
    decreases |ops|
  {
    if ops != [] {
      ApplyOneGrows(w, ops[0], rounds);
      ApplyAllGrows(ApplyOne(w, ops[0], rounds).work, ops[1..], rounds);
    }
  }

  lemma {:induction false} ApplyOneConserves(w: Work, o: Operation, rounds: nat)
    requires ApplyOne(w, o, rounds).Done? && UniqueWork(ApplyOne(w, o, rounds).work)
    ensures Conserves(w, ApplyOne(w, o, rounds).work, Superseded(o), Removed(o))
  {
    var w0 := w.(queue := []);
    var w1, end := Enter(w0, o).value, ApplyOne(w, o, rounds).work;
    RunGrows(w1, rounds, end);
    UniqueBefore(w1, end);
    EnterConserves(w0, o);
    RunConserves(w1, rounds, end);
    ConservesThen(w0, w1, end, Superseded(o), Removed(o), {}, {});
    assert Superseded(o) + {} == Superseded(o) && Removed(o) + {} == Removed(o);
  }

  lemma {:induction false} ApplyAllConserves(w: Work, ops: seq<Operation>, rounds: nat)
    requires ApplyAll(w, ops, rounds).Done? && UniqueWork(ApplyAll(w, ops, rounds).work)
    ensures Conserves(w, ApplyAll(w, ops, rounds).work, SupersededBy(ops), RemovedBy(ops))
    decreases |ops|
  {
    if ops == [] {
      ConservesNothing(w);
    } else {
      var w1, end := ApplyOne(w, ops[0], rounds).work, ApplyAll(w, ops, rounds).work;
      ApplyAllGrows(w1, ops[1..], rounds);
      UniqueBefore(w1, end);
      ApplyOneConserves(w, ops[0], rounds);
      ApplyAllConserves(w1, ops[1..], rounds);
      ConservesThen(w, w1, end, Superseded(ops[0]), Removed(ops[0]), SupersededBy(ops[1..]), RemovedBy(ops[1..]));
    }
  }

  lemma {:induction false} TargetsChecked(g: Graph)
    requires Valid(g, false)
    ensures ActiveTargetsOk(g) <==> TargetsLive(g)
  {
    ResolvedIff(g);
    TargetsMean(g);
  }

  /** A patch that is accepted leaves an accepted graph, one revision further, in which nothing was lost. No
      property of the graph it started from is assumed. */
  lemma {:induction false} PatchIsSafe(g: Graph, p: GraphPatch, rounds: nat)
    requires Apply(g, p, rounds).Patched?
    ensures var g' := Apply(g, p, rounds).graph;
      && Accepted(g') && g'.revision == g.revision + 1 && p.baseRevision == g.revision
      && g'.replanCount == g.replanCount + (if g.revision == 0 then 0 else 1)
      && Conserves(ListsOf(g), ListsOf(g'), SupersededBy(p.operations), RemovedBy(p.operations))
      && (g.revision == 0 ==> ReadyList(g') != [])
  {
    var w := PatchedFrom(g, p, rounds);
    FinalAccepts(g, Updated(g, w));
    ValidIsUnique(Updated(g, w));
    ApplyAllConserves(ListsOf(g), p.operations, rounds);
    SameLists(ListsOf(g), w, Updated(g, w), SupersededBy(p.operations), RemovedBy(p.operations));
  }

  lemma {:induction false} PatchedFrom(g: Graph, p: GraphPatch, rounds: nat) returns (w: Work)
    requires Apply(g, p, rounds).Patched?
    ensures ApplyAll(ListsOf(g), p.operations, rounds) == Done(w) && Apply(g, p, rounds).graph == Updated(g, w)
    ensures FinalProblem(g, Updated(g, w)).None? && p.baseRevision == g.revision
  {
    w := ApplyAll(ListsOf(g), p.operations, rounds).work;
  }

  lemma {:induction false} FinalAccepts(g: Graph, updated: Graph)
    requires FinalProblem(g, updated).None?
    ensures Accepted(updated) && (g.revision == 0 ==> ReadyList(updated) != [])
  {
    AcceptedIffValid(updated, false);
    TargetsChecked(updated);
    ReadyTasksAre(updated);
  }

  lemma {:induction false} ValidIsUnique(g: Graph)
    requires Accepted(g)
    ensures UniqueRefs(TaskItems(g.tasks)) && UniqueRefs(GroupItems(g.groups))
  {
  }

  /** The queue is not part of what is conserved. */
  lemma {:induction false} SameLists(before: Work, w: Work, updated: Graph, superseded: set<string>, removed: set<string>)
    requires Conserves(before, w, superseded, removed)
    requires w.tasks == updated.tasks && w.groups == updated.groups && w.activeTasks == updated.activeTasks && w.activeGroups == updated.activeGroups
    ensures Conserves(before, ListsOf(updated), superseded, removed)
  {
  }
}
