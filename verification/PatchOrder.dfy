/** Patch operations and the order of dependencies. If the new dependencies of every operation go downwards in one
    order of the logical ids, then every operation finishes, hands the order on, and so the patch finishes. */
module PatchOrder {
  import opened Core
  import opened Items
  import opened Rewrite
  import opened RewritePass
  import opened RewriteRound
  import opened RewriteLog
  import opened RewriteTheorems
  import opened RewriteTermination
  import opened RewriteRaising
  import opened RunOrder
  import opened Patch
  import opened PatchConserves
  import opened PatchEdits

  // ---------------------------------------------------------------- what an operation brings in

  /** The items that it lists under logical ids of their own. */
  function Adds(o: Operation): seq<Item> {
    match o.op
    case AddTask => TaskOf(o)
    case AddRepairTask => TaskOf(o)
    case AddVerificationTask => TaskOf(o)
    case AddGroup => GroupOf(o)
    case ExpandTask => GroupOf(o) + TaskItems(o.childTasks)
    case _ => []
  }

  /** The next revision that it carries for an item. */
  function Replaces(o: Operation): seq<Item> {
    match o.op
    case ReplacePendingTask => TaskOf(o)
    case SupersedeCompletedTask => TaskOf(o)
    case ReplacePendingGroup => GroupOf(o)
    case _ => []
  }

  function TaskOf(o: Operation): seq<Item> {
    if o.task.Some? then [TaskItem(o.task.value)] else []
  }

  function GroupOf(o: Operation): seq<Item> {
    if o.group.Some? then [GroupItem(o.group.value)] else []
  }

  function Brings(o: Operation): seq<Item> {
    Adds(o) + Replaces(o)
  }

  /** Children are Tasks, and the items added have different logical ids. */
  ghost predicate SoundOperation(o: Operation) {
    && (forall m :: m in Brings(o) && m.GroupItem? ==> forall c :: c in m.group.children ==> c.task.kind == TaskKind)
    && forall x, y :: x in Adds(o) && y in Adds(o) && x.AsRef().Logical() == y.AsRef().Logical() ==> x.AsRef() == y.AsRef()
  }

  /** All that the operation makes something depend on is listed, or is one of the `allowed` references. */
  ghost predicate Lists(w: Work, o: Operation, allowed: set<Ref>) {
    && (forall m :: m in Brings(o) && m.Status() == Pending ==> MentionsListed(w, allowed, m))
    && (o.op.ReplaceDependencies? ==> forall d :: d in o.dependencies ==> Known(w, d) || d in allowed)
  }

  /** All that it makes something depend on is dead or lies below in the order; a Group that a Task is expanded
      into lies no higher than the Task did. */
  ghost predicate Respects(w: Work, o: Operation, rank: LogicalId -> nat) {
    && (forall m :: m in Brings(o) && m.Status() == Pending ==> ItemOrdered(w, rank, m))
    && (o.op.ReplaceDependencies? && o.taskId.Some? ==>
          forall d :: d in o.dependencies ==> Below(w, rank, d, LogicalId(TaskKind, o.taskId.value)))
    && (o.op.ExpandTask? && o.taskId.Some? && o.group.Some? ==>
          rank(o.group.value.AsRef().Logical()) <= rank(LogicalId(TaskKind, o.taskId.value)))
  }

  // ---------------------------------------------------------------- every operation as an edit

  /** An entering item is one that the operation brings, or the next revision of the pending Task that leaves, which
      keeps that Task's dependencies or takes those of the operation. */
  ghost predicate ComesFrom(o: Operation, out: Option<Item>, x: Item) {
    || x in Brings(o)
    || (out.Some? && NextRevision(o, out.value, x))
  }

  ghost predicate NextRevision(o: Operation, m: Item, x: Item) {
    && m.TaskItem? && x.TaskItem? && m.Status() == Pending && x.AsRef().Logical() == m.AsRef().Logical()
    && if o.op.ReplaceDependencies? then x.Mentions() == o.dependencies && o.taskId == Some(m.task.id) else x.Mentions() == m.Mentions()
  }

  /** A queued rewrite leads from what leaves to its next revision, or from an expanded Task to its Group. */
  ghost predicate Queues(o: Operation, w1: Work, out: Option<Item>, ins: seq<Item>) {
    w1.queue == [] || (out.Some? && exists x :: x in ins && Leads(o, w1, out.value, x))
  }

  ghost predicate Leads(o: Operation, w1: Work, m: Item, x: Item) {
    && w1.queue == [Entry(m.AsRef(), x.AsRef())] && IsLive(w1, x.AsRef())
    && (x.AsRef().Logical() == m.AsRef().Logical()
        || (o.op.ExpandTask? && o.taskId == Some(m.AsRef().id) && m.TaskItem? && o.group.Some? && x == GroupItem(o.group.value)))
  }

  ghost predicate IsEdit(w: Work, o: Operation, w1: Work, out: Option<Item>, ins: seq<Item>) {
    && Edits(w, w1, out, ins) && Enters(w, out, ins) && Queues(o, w1, out, ins)
    && (forall x :: x in ins ==> ComesFrom(o, out, x) && (x in Adds(o) || (out.Some? && x.AsRef().Logical() == out.value.AsRef().Logical())))
    && (forall x :: x in Adds(o) ==> x in ins)
  }

  lemma {:induction false} NewIsNewer(w: Work, before: set<Ref>, out: Option<Item>, ref: Ref)
    requires Tidy(w, before) && ref in before
    ensures Newer(w, out, ref) && !Known(w, ref)
  {
    assert NewId(w, ref.Logical());
  }

  lemma {:induction false} NextIsNewer(w: Work, m: Item, x: Item)
    requires WorkOk(w) && LiveIsNewest(w) && m in Live(w) && x.AsRef().Logical() == m.AsRef().Logical()
    requires x.AsRef().revision == m.AsRef().revision + 1
    ensures Enters(w, Some(m), [x]) && !Known(w, x.AsRef())
  {
    forall ref | Known(w, ref) && ref.Logical() == x.AsRef().Logical() ensures ref.revision < x.AsRef().revision { NewestOf(w, m, ref); }
  }

  lemma {:induction false} AddTaskIsEdit(w: Work, o: Operation, before: set<Ref>)
    requires Tidy(w, before) && w.queue == [] && (o.op.AddTask? || o.op.AddRepairTask? || o.op.AddVerificationTask?)
    requires (forall x :: x in Adds(o) ==> x.AsRef() in before) && Enter(w, o).Ok?
    ensures IsEdit(w, o, Enter(w, o).value, None, Adds(o))
  {
    var t := o.task.value;
    assert TaskItem(t) in Adds(o);
    NewIsNewer(w, before, None, t.AsRef());
    AddingEdits(w, t);
  }

  lemma {:induction false} AddGroupIsEdit(w: Work, o: Operation, before: set<Ref>)
    requires Tidy(w, before) && w.queue == [] && o.op.AddGroup? && SoundOperation(o)
    requires (forall x :: x in Adds(o) ==> x.AsRef() in before) && Enter(w, o).Ok?
    ensures IsEdit(w, o, Enter(w, o).value, None, Adds(o))
  {
    var g := o.group.value;
    assert GroupItem(g) in Adds(o) && GroupItem(g) in Brings(o);
    NewIsNewer(w, before, None, g.AsRef());
    AddingGroupEdits(w, g);
  }

  lemma {:induction false} ActiveTaskIsLive(w: Work, o: Operation)
    requires WorkOk(w) && ActiveTaskById(w, o.taskId).Ok?
    ensures TaskItem(ActiveTaskById(w, o.taskId).value) in Live(w)
  {
    LiveMeans(w, TaskItem(ActiveTaskById(w, o.taskId).value));
  }

  lemma {:induction false} SupersedeIsEdit(w: Work, o: Operation, t: Task, r: Task)
    requires WorkOk(w) && LiveIsNewest(w) && TaskItem(t) in Live(w) && r.id == t.id && r.revision == t.revision + 1
    requires Adds(o) == [] && ComesFrom(o, Some(TaskItem(t)), TaskItem(r))
    ensures IsEdit(w, o, Supersede(w, t, r), Some(TaskItem(t)), [TaskItem(r)])
  {
    NextIsNewer(w, TaskItem(t), TaskItem(r));
    SupersedingEdits(w, t, r);
    LiveMeans(w, TaskItem(t));
    var w1 := Supersede(w, t, r);
    TargetLive(w.activeTasks, Entry(t.AsRef(), r.AsRef()));
    assert TaskItem(r) in [TaskItem(r)] && Leads(o, w1, TaskItem(t), TaskItem(r));
  }

  /** The next revision that `replace_dependencies` and `set_priority` make. */
  function RevisionAsked(t: Task, o: Operation): Task
    requires o.op.SetPriority? ==> o.priority.Some?
  {
    var next := t.(revision := t.revision + 1);
    if o.op.SetPriority? then next.(priority := o.priority.value) else next.(dependsOn := o.dependencies)
  }

  lemma {:induction false} ReviseEnters(w: Work, o: Operation) returns (t: Task)
    requires (o.op.ReplaceDependencies? || o.op.SetPriority?) && Enter(w, o).Ok?
    ensures ActiveTaskById(w, o.taskId) == Ok(t) && t.status == Pending && (o.op.SetPriority? ==> o.priority.Some?)
    ensures Enter(w, o).value == Supersede(w, t, RevisionAsked(t, o))
  {
    t := ActiveTaskById(w, o.taskId).value;
  }

  lemma {:induction false} ReviseIsEdit(w: Work, o: Operation) returns (out: Option<Item>, ins: seq<Item>)
    requires WorkOk(w) && LiveIsNewest(w) && (o.op.ReplaceDependencies? || o.op.SetPriority?) && Enter(w, o).Ok?
    ensures IsEdit(w, o, Enter(w, o).value, out, ins)
  {
    var t := ReviseEnters(w, o);
    ActiveTaskIsLive(w, o);
    SupersedeIsEdit(w, o, t, RevisionAsked(t, o));
    out, ins := Some(TaskItem(t)), [TaskItem(RevisionAsked(t, o))];
  }

  lemma {:induction false} ReplaceTaskIsEdit(w: Work, o: Operation) returns (out: Option<Item>, ins: seq<Item>)
    requires WorkOk(w) && LiveIsNewest(w) && w.queue == [] && Enter(w, o).Ok?
    requires o.op.ReplacePendingTask? || o.op.SetExecutorPolicy? || o.op.SupersedeCompletedTask?
    ensures IsEdit(w, o, Enter(w, o).value, out, ins)
  {
    var t := ActiveTaskById(w, o.taskId).value;
    var r := TaskReplacement(t, o).value;
    ActiveTaskIsLive(w, o);
    if !o.op.SetExecutorPolicy? { assert TaskItem(r) == Replaces(o)[0]; }
    SupersedeIsEdit(w, o, t, r);
    out, ins := Some(TaskItem(t)), [TaskItem(r)];
  }

  lemma {:induction false} ReplaceGroupIsEdit(w: Work, o: Operation) returns (out: Option<Item>, ins: seq<Item>)
    requires WorkOk(w) && LiveIsNewest(w) && w.queue == [] && o.op.ReplacePendingGroup? && SoundOperation(o) && Enter(w, o).Ok?
    ensures IsEdit(w, o, Enter(w, o).value, out, ins)
  {
    var g, r := ActiveGroupById(w, o.groupId).value, o.group.value;
    var w1 := Enter(w, o).value;
    assert GroupItem(r) == Replaces(o)[0] && GroupItem(r) in Brings(o);
    LiveMeans(w, GroupItem(g));
    NextIsNewer(w, GroupItem(g), GroupItem(r));
    SupersedingGroupEdits(w, g, r);
    assert w1 == SupersedeGroup(w, g, r);
    TargetLive(w.activeGroups, Entry(g.AsRef(), r.AsRef()));
    out, ins := Some(GroupItem(g)), [GroupItem(r)];
    assert GroupItem(r) in ins && Leads(o, w1, GroupItem(g), GroupItem(r));
  }

  lemma {:induction false} CancelEnters(w: Work, o: Operation) returns (t: Task)
    requires o.op.CancelPendingTask? && Enter(w, o).Ok?
    ensures ActiveTaskById(w, o.taskId) == Ok(t) && Enter(w, o).value == Cancel(w, t)
  {
    t := ActiveTaskById(w, o.taskId).value;
  }

  lemma {:induction false} CancelIsEdit(w: Work, o: Operation) returns (out: Option<Item>, ins: seq<Item>)
    requires WorkOk(w) && w.queue == [] && o.op.CancelPendingTask? && Enter(w, o).Ok?
    ensures IsEdit(w, o, Enter(w, o).value, out, ins)
  {
    var t := CancelEnters(w, o);
    ActiveTaskIsLive(w, o);
    CancellingEdits(w, t);
    out, ins := Some(TaskItem(t)), [];
  }

  // ---------------------------------------------------------------- expansion

  /** The lists that expanding builds, before it queues its rewrite. */
  lemma {:induction false} ExpandedEdits(w: Work, t: Task, g: Group, children: seq<Task>)
    requires WorkOk(w) && TaskItem(t) in Live(w) && !Known(w, g.AsRef()) && forall c :: c in g.children ==> c.task.kind == TaskKind
    requires AppendTasks(AppendGroup(Cancel(w, t), g), children).Ok?
    ensures Edits(w, AppendTasks(AppendGroup(Cancel(w, t), g), children).value, Some(TaskItem(t)), [GroupItem(g)] + TaskItems(children))
  {
    var w1 := Cancel(w, t);
    CancellingEdits(w, t);
    assert !Known(w1, g.AsRef());
    AddingGroupEdits(w1, g);
    var w2 := AppendGroup(w1, g);
    AddingAllEdits(w2, children);
    EditsThen(w, w1, w2, Some(TaskItem(t)), [], [GroupItem(g)]);
    assert [] + [GroupItem(g)] == [GroupItem(g)];
    EditsThen(w, w2, AppendTasks(w2, children).value, Some(TaskItem(t)), [GroupItem(g)], TaskItems(children));
  }

  lemma {:induction false} QueueIsNoEdit(w: Work, w1: Work, out: Option<Item>, ins: seq<Item>, queue: seq<Entry>)
    requires Edits(w, w1, out, ins)
    ensures Edits(w, w1.(queue := queue), out, ins)
  {
    var w2 := w1.(queue := queue);
    assert TaskLane(w2) == TaskLane(w1) && GroupLane(w2) == GroupLane(w1);
    assert Live(w2) == Live(w1);
  }

  lemma {:induction false} ActiveGrows(w: Work, ts: seq<Task>)
    requires AppendTasks(w, ts).Ok?
    ensures AppendTasks(w, ts).value.activeGroups == w.activeGroups
    decreases |ts|
  {
    if ts != [] { ActiveGrows(AppendTask(w, ts[0]).value, ts[1..]); }
  }

  /** The lists that expanding builds. */
  function Expanded(w: Work, t: Task, g: Group, children: seq<Task>): Result<Work, GraphError> {
    AppendTasks(AppendGroup(Cancel(w, t), g), children)
  }

  lemma {:induction false} ExpandEnters(w: Work, o: Operation) returns (t: Task, g: Group)
    requires o.op.ExpandTask? && Enter(w, o).Ok?
    ensures ActiveTaskById(w, o.taskId) == Ok(t) && t.status == Pending && t.shape == Expandable
    ensures o.group == Some(g) && g.dependsOn == t.dependsOn && Elements(ChildRefs(g.children)) == Elements(RefsOf(TaskItems(o.childTasks)))
    ensures Expanded(w, t, g, o.childTasks).Ok?
    ensures Enter(w, o).value == Expanded(w, t, g, o.childTasks).value.(queue := [Entry(t.AsRef(), g.AsRef())])
    ensures g.AsRef() in Enter(w, o).value.activeGroups
  {
    t, g := ActiveTaskById(w, o.taskId).value, o.group.value;
    ActiveGrows(AppendGroup(Cancel(w, t), g), o.childTasks);
  }

  /** The edit of an expansion: the Task leaves, the Group and the children enter. */
  lemma {:induction false} ExpandingEdits(w: Work, o: Operation, before: set<Ref>) returns (t: Task, g: Group)
    requires Tidy(w, before) && o.op.ExpandTask? && SoundOperation(o) && (forall x :: x in Adds(o) ==> x.AsRef() in before) && Enter(w, o).Ok?
    ensures ActiveTaskById(w, o.taskId) == Ok(t) && t.status == Pending && t.shape == Expandable && TaskItem(t) in Live(w)
    ensures o.group == Some(g) && g.dependsOn == t.dependsOn && Elements(ChildRefs(g.children)) == Elements(RefsOf(TaskItems(o.childTasks)))
    ensures Enter(w, o).value.queue == [Entry(t.AsRef(), g.AsRef())] && g.AsRef() in Enter(w, o).value.activeGroups
    ensures Edits(w, Enter(w, o).value, Some(TaskItem(t)), Adds(o))
  {
    t, g := ExpandEnters(w, o);
    ActiveTaskIsLive(w, o);
    assert GroupItem(g) == Adds(o)[0] && GroupItem(g) in Brings(o);
    NewIsNewer(w, before, None, g.AsRef());
    ExpandedEdits(w, t, g, o.childTasks);
    QueueIsNoEdit(w, Expanded(w, t, g, o.childTasks).value, Some(TaskItem(t)), Adds(o), [Entry(t.AsRef(), g.AsRef())]);
  }

  lemma {:induction false} ExpandIsEdit(w: Work, o: Operation, before: set<Ref>) returns (out: Option<Item>, ins: seq<Item>)
    requires Tidy(w, before) && o.op.ExpandTask? && SoundOperation(o)
    requires (forall x :: x in Adds(o) ==> x.AsRef() in before) && Enter(w, o).Ok?
    ensures IsEdit(w, o, Enter(w, o).value, out, ins)
  {
    var t, g := ExpandingEdits(w, o, before);
    out, ins := Some(TaskItem(t)), Adds(o);
    forall x | x in ins ensures Newer(w, out, x.AsRef()) { NewIsNewer(w, before, out, x.AsRef()); }
    assert GroupItem(g) == ins[0] && Leads(o, Enter(w, o).value, TaskItem(t), GroupItem(g));
  }

  lemma {:induction false} EnterIsEdit(w: Work, o: Operation, before: set<Ref>) returns (out: Option<Item>, ins: seq<Item>)
    requires Tidy(w, before) && w.queue == [] && SoundOperation(o)
    requires (forall x :: x in Adds(o) ==> x.AsRef() in before) && Enter(w, o).Ok?
    ensures IsEdit(w, o, Enter(w, o).value, out, ins)
  {
    match o.op
    case AddTask => out, ins := None, Adds(o); AddTaskIsEdit(w, o, before);
    case AddRepairTask => out, ins := None, Adds(o); AddTaskIsEdit(w, o, before);
    case AddVerificationTask => out, ins := None, Adds(o); AddTaskIsEdit(w, o, before);
    case AddGroup => out, ins := None, Adds(o); AddGroupIsEdit(w, o, before);
    case ReplaceDependencies => out, ins := ReviseIsEdit(w, o);
    case SetPriority => out, ins := ReviseIsEdit(w, o);
    case ReplacePendingTask => out, ins := ReplaceTaskIsEdit(w, o);
    case SetExecutorPolicy => out, ins := ReplaceTaskIsEdit(w, o);
    case SupersedeCompletedTask => out, ins := ReplaceTaskIsEdit(w, o);
    case ReplacePendingGroup => out, ins := ReplaceGroupIsEdit(w, o);
    case CancelPendingTask => out, ins := CancelIsEdit(w, o);
    case ExpandTask => out, ins := ExpandIsEdit(w, o, before);
  }

  // ---------------------------------------------------------------- one operation

  function RefSet(items: seq<Item>): set<Ref> {
    Elements(RefsOf(items))
  }

  lemma {:induction false} InRefSet(items: seq<Item>)
    ensures forall x :: x in items ==> x.AsRef() in RefSet(items)
  {
    forall x | x in items ensures x.AsRef() in RefSet(items) { InRefs(items, x); }
  }

  /** The logical ids that the operation adds are not among the future ones. */
  ghost predicate IdsApart(o: Operation, future: set<Ref>) {
    forall f, x :: f in future && x in Adds(o) ==> f.Logical() != x.AsRef().Logical()
  }

  /** The lists after the edit of an operation. */
  ghost predicate Entered(w1: Work, future: set<Ref>) {
    Tidy(w1, future) && (w1.queue != [] ==> StartOk(w1) && IsLive(w1, w1.queue[0].target))
  }

  lemma {:induction false} EnteringListed(w: Work, o: Operation, w1: Work, out: Option<Item>, ins: seq<Item>, future: set<Ref>, x: Item)
    requires Tidy(w, future + RefSet(Adds(o))) && IsEdit(w, o, w1, out, ins) && Lists(w, o, future + RefSet(Adds(o)))
    requires x in ins && x.Status() == Pending
    ensures MentionsListed(w1, future, x)
  {
    var before := future + RefSet(Adds(o));
    assert ComesFrom(o, out, x);
    if x !in Brings(o) && !o.op.ReplaceDependencies? { assert MentionsListed(w, before, out.value); }
    forall d | d in x.Mentions() ensures Known(w1, d) || d in future {
      assert Known(w, d) || d in before;
      if d in RefSet(Adds(o)) {
        var y := OfRefs(Adds(o), d);
        InRefs(ins, y);
      }
    }
  }

  lemma {:induction false} EnteringApart(w: Work, o: Operation, w1: Work, out: Option<Item>, ins: seq<Item>, future: set<Ref>, f: Ref, x: Item)
    requires Tidy(w, future + RefSet(Adds(o))) && IsEdit(w, o, w1, out, ins) && IdsApart(o, future) && f in future && x in ins
    ensures f.Logical() != x.AsRef().Logical()
  {
    if x !in Adds(o) {
      LiveIsKnown(w, out.value);
      assert NewId(w, f.Logical());
    }
  }

  lemma {:induction false} IsEditKeepsTidy(w: Work, o: Operation, w1: Work, out: Option<Item>, ins: seq<Item>, future: set<Ref>)
    requires Tidy(w, future + RefSet(Adds(o))) && IsEdit(w, o, w1, out, ins) && IdsApart(o, future) && Lists(w, o, future + RefSet(Adds(o)))
    ensures Tidy(w1, future)
  {
    forall x | x in ins && x.Status() == Pending ensures MentionsListed(w1, future, x) { EnteringListed(w, o, w1, out, ins, future, x); }
    forall f, x | f in future && x in ins ensures f.Logical() != x.AsRef().Logical() { EnteringApart(w, o, w1, out, ins, future, f, x); }
    forall f | f in future + RefSet(Adds(o)) ensures f in future || f in RefsOf(ins) {
      if f in RefSet(Adds(o)) {
        var y := OfRefs(Adds(o), f);
        InRefs(ins, y);
      }
    }
    EditKeepsTidy(w, w1, out, ins, future + RefSet(Adds(o)), future);
  }

  /** The edit of any operation leaves tidy lists, and where it queues a rewrite the worklist may start. */
  lemma {:induction false} EnterKeepsTidy(w: Work, o: Operation, future: set<Ref>)
    requires Tidy(w, future + RefSet(Adds(o))) && w.queue == [] && SoundOperation(o) && Enter(w, o).Ok?
    requires IdsApart(o, future) && Lists(w, o, future + RefSet(Adds(o)))
    ensures Entered(Enter(w, o).value, future) && Descends(w, Enter(w, o).value)
    ensures forall x :: x in Adds(o) ==> Known(Enter(w, o).value, x.AsRef())
  {
    InRefSet(Adds(o));
    var w1 := Enter(w, o).value;
    var out, ins := EnterIsEdit(w, o, future + RefSet(Adds(o)));
    IsEditKeepsTidy(w, o, w1, out, ins, future);
    EditDescends(w, w1, out, ins);
    forall x | x in Adds(o) ensures Known(w1, x.AsRef()) { InRefs(ins, x); }
    if w1.queue != [] {
      var x :| x in ins && Leads(o, w1, out.value, x);
      InRefs(ins, x);
      EditStarts(w, w1, out.value, ins, w1.queue[0], future);
    }
  }

  lemma {:induction false} EnteringOrdered(w: Work, o: Operation, w1: Work, out: Option<Item>, ins: seq<Item>, rank: LogicalId -> nat, x: Item)
    requires WorkOk(w) && Ordered(w, rank) && IsEdit(w, o, w1, out, ins) && Respects(w, o, rank) && x in ins && x.Status() == Pending
    ensures ItemOrdered(w, rank, x)
  {
    assert ComesFrom(o, out, x);
    if x !in Brings(o) && !o.op.ReplaceDependencies? { assert ItemOrdered(w, rank, out.value); }
  }

  /** The edit of an operation that respects an order keeps it, a mention of what was superseded counting as one
      of its successor. */
  lemma {:induction false} EnterKeepsOrder(w: Work, o: Operation, before: set<Ref>, rank: LogicalId -> nat)
    requires Tidy(w, before) && w.queue == [] && SoundOperation(o) && (forall x :: x in Adds(o) ==> x.AsRef() in before) && Enter(w, o).Ok?
    requires Ordered(w, rank) && Respects(w, o, rank)
    ensures var w1 := Enter(w, o).value;
      WorkOk(w1) && Ordered(w1, rank) && (w1.queue != [] && StartOk(w1) ==> StartOrdered(w1, rank))
  {
    var w1 := Enter(w, o).value;
    var out, ins := EnterIsEdit(w, o, before);
    forall x | x in ins && x.Status() == Pending ensures ItemOrdered(w, rank, x) { EnteringOrdered(w, o, w1, out, ins, rank, x); }
    EditOrders(w, w1, out, ins, rank);
    if w1.queue != [] && StartOk(w1) {
      var x :| x in ins && Leads(o, w1, out.value, x);
      EditStartsOrdered(w, w1, out.value, ins, w1.queue[0], rank);
    }
  }

  /** The whole operation: it finishes, and hands on tidy lists and the order. */
  lemma {:induction false} OperationFinishes(w: Work, o: Operation, future: set<Ref>, rank: LogicalId -> nat) returns (rounds: nat)
    requires Tidy(w, future + RefSet(Adds(o))) && w.queue == [] && Ordered(w, rank)
    requires SoundOperation(o) && IdsApart(o, future) && Lists(w, o, future + RefSet(Adds(o))) && Respects(w, o, rank)
    ensures ApplyOne(w, o, rounds) != Unfinished
    ensures ApplyOne(w, o, rounds).Done? ==>
      var w' := ApplyOne(w, o, rounds).work;
      && Tidy(w', future) && Ordered(w', rank) && w'.queue == [] && Descends(w, w')
      && forall x :: x in Adds(o) ==> Known(w', x.AsRef())
  {
    assert w.(queue := []) == w;
    rounds := 0;
    if Enter(w, o).Ok? {
      var w1 := Enter(w, o).value;
      InRefSet(Adds(o));
      EnterKeepsTidy(w, o, future);
      EnterKeepsOrder(w, o, future + RefSet(Adds(o)), rank);
      if w1.queue != [] {
        StartOrderedTerminates(w1, rank);
        rounds :| RunRounds(w1, rounds) != Unfinished;
        if RunRounds(w1, rounds).Done? { RunHandsOn(w1, rounds, RunRounds(w1, rounds).work, future, rank); }
      }
    }
  }

  lemma {:induction false} RunHandsOn(w1: Work, rounds: nat, w': Work, future: set<Ref>, rank: LogicalId -> nat)
    requires Entered(w1, future) && w1.queue != [] && StartOrdered(w1, rank) && RunRounds(w1, rounds) == Done(w')
    ensures Tidy(w', future) && Ordered(w', rank) && w'.queue == [] && Descends(w1, w')
  {
    RunKeepsTidy(w1, rounds, w', future);
    RunKeepsOrder(w1, rounds, w', rank);
    DeadStays(w1, rounds, w');
    RunKeeps(a => true, w1, rounds, w');
  }
}
