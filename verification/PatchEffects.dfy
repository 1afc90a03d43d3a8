/** What single patch operations achieve, their worklist run included. */
module PatchEffects {
  import opened Core
  import opened Items
  import opened Rewrite
  import opened RewritePass
  import opened RewriteRound
  import opened RewriteLog
  import opened RewriteTheorems
  import opened RewriteRaising
  import opened Validation
  import opened Patch
  import opened PatchConserves
  import opened RunOrder
  import opened PatchEdits
  import opened PatchOrder
  import opened PatchTermination

  // ---------------------------------------------------------------- the next revision of a Task

  /** The lists after the next revision `r` of the active Task `t` was appended. */
  ghost predicate Superseding(g: Graph, t: Task, r: Task, w1: Work) {
    && Newest(g) && t in g.tasks && t.AsRef() in g.activeTasks
    && r.id == t.id && r.revision == t.revision + 1
    && w1 == Supersede(ListsOf(g), t, r)
  }

  lemma {:induction false} NextIsNew(g: Graph, t: Task, r: Task, w1: Work)
    requires Superseding(g, t, r, w1)
    ensures !Known(ListsOf(g), r.AsRef())
  {
    LiveTask(ListsOf(g), t);
    var i :| 0 <= i < |Live(ListsOf(g))| && Live(ListsOf(g))[i] == TaskItem(t);
  }

  lemma {:induction false} SupersedingShaped(g: Graph, t: Task, r: Task, w1: Work)
    requires Superseding(g, t, r, w1)
    ensures WorkOk(w1) && |Live(w1)| == |LiveItems(g)| && TaskItem(t) in LiveItems(g)
    ensures forall i :: 0 <= i < |Live(w1)| ==>
      Live(w1)[i] == if LiveItems(g)[i] == TaskItem(t) then TaskItem(r) else LiveItems(g)[i]
    ensures forall ref :: Known(w1, ref) <==> Known(ListsOf(g), ref) || ref == r.AsRef()
  {
    LiveIsLiveItems(g);
    LiveTask(ListsOf(g), t);
    SupersededLanes(g, t, r, w1);
    SupersededLive(ListsOf(g), t, r, w1);
    assert TaskItems(w1.tasks) == TaskItems(g.tasks) + [TaskItem(r)];
    KnownAppended(TaskItems(g.tasks), TaskItem(r));
  }

  lemma {:induction false} SupersededLanes(g: Graph, t: Task, r: Task, w1: Work)
    requires Superseding(g, t, r, w1)
    ensures WorkOk(w1) && |w1.activeTasks| == |g.activeTasks| && GroupLane(w1) == GroupLane(ListsOf(g))
    ensures forall i: nat :: i < |g.activeTasks| ==>
      At(TaskLane(w1), i) == if At(TaskLane(ListsOf(g)), i) == TaskItem(t) then TaskItem(r) else At(TaskLane(ListsOf(g)), i)
  {
    var w := ListsOf(g);
    NextIsNew(g, t, r, w1);
    var lane, items := TaskLane(w), TaskItems(w.tasks);
    assert TaskItem(t) in items by { var k :| 0 <= k < |w.tasks| && w.tasks[k] == t; assert items[k] == TaskItem(t); }
    assert TaskItems(w1.tasks) == items + [TaskItem(r)];
    AppendUnique(items, TaskItem(r));
    SupersededLane(lane, TaskItem(t), TaskItem(r), TaskLane(w1));
  }

  lemma {:induction false} SupersededLive(w: Work, t: Task, r: Task, w1: Work)
    requires WorkOk(w) && WorkOk(w1) && |w1.activeTasks| == |w.activeTasks| && GroupLane(w1) == GroupLane(w)
    requires forall i: nat :: i < |w.activeTasks| ==> At(TaskLane(w1), i) == if At(TaskLane(w), i) == TaskItem(t) then TaskItem(r) else At(TaskLane(w), i)
    ensures |Live(w1)| == |Live(w)|
    ensures forall i :: 0 <= i < |Live(w1)| ==> Live(w1)[i] == if Live(w)[i] == TaskItem(t) then TaskItem(r) else Live(w)[i]
  {
    var n := |w.activeTasks|;
    forall i | 0 <= i < |Live(w1)| ensures Live(w1)[i] == if Live(w)[i] == TaskItem(t) then TaskItem(r) else Live(w)[i] {
      if i < n { assert Live(w1)[i] == At(TaskLane(w1), i) && Live(w)[i] == At(TaskLane(w), i); } else {
        assert Live(w1)[i] == At(GroupLane(w1), i - n) && Live(w)[i] == At(GroupLane(w), i - n);
      }
    }
  }

  lemma {:induction false} SupersededLane(l: Lane, m: Item, r: Item, l1: Lane)
    requires LaneOk(l) && m in l.items && !HasRef(l.items, r.AsRef()) && UniqueRefs(l.items + [r])
    requires l1 == Lane(l.items + [r], ReplaceRef(l.active, Entry(m.AsRef(), r.AsRef())))
    ensures LaneOk(l1) && |l1.active| == |l.active|
    ensures forall i: nat :: i < |l.active| ==> At(l1, i) == if At(l, i) == m then r else At(l, i)
  {
    LookupUnique(l.items, m);
    KnownAppended(l.items, r);
    LookupUnique(l1.items, r);
    forall i: nat | i < |l.active|
      ensures HasRef(l1.items, l1.active[i]) && Lookup(l1.items, l1.active[i]) == if At(l, i) == m then r else At(l, i)
    {
      assert At(l, i) in l1.items;
      LookupUnique(l1.items, At(l, i));
    }
  }

  /** The operations that supersede one Task. */
  predicate Revises(o: Operation) {
    o.op.SetPriority? || o.op.SetExecutorPolicy? || o.op.ReplaceDependencies? || o.op.ReplacePendingTask? || o.op.SupersedeCompletedTask?
  }

  /** The revision that each of them asks for. */
  ghost predicate AskedFor(t: Task, o: Operation, r: Task) {
    && r.id == t.id && r.revision == t.revision + 1
    && (o.op.SetPriority? ==> o.priority.Some? && r == t.(revision := r.revision, priority := o.priority.value))
    && (o.op.SetExecutorPolicy? ==> o.policy.Some? && r == t.(revision := r.revision, policy := o.policy.value))
    && (o.op.ReplaceDependencies? ==> r == t.(revision := r.revision, dependsOn := o.dependencies))
    && (o.op.ReplacePendingTask? || o.op.SupersedeCompletedTask? ==> o.task == Some(r) && CleanTask(r))
  }

  lemma {:induction false} EntersRevision(g: Graph, o: Operation) returns (t: Task, r: Task)
    requires Newest(g) && Revises(o) && Enter(ListsOf(g), o).Ok?
    ensures Superseding(g, t, r, Enter(ListsOf(g), o).value) && AskedFor(t, o, r) && o.taskId == Some(t.id)
    ensures t.status == (if o.op.SupersedeCompletedTask? then Completed else Pending) && o.expectedRevision == Some(t.revision)
  {
    var w := ListsOf(g);
    t := ActiveTaskById(w, o.taskId).value;
    r := Enter(w, o).value.tasks[|w.tasks|];
  }

  /** An item's content, its own revision and the revisions it mentions apart. */
  ghost predicate SameButRevisions(m: Item, m': Item) {
    && m'.AsRef().Logical() == m.AsRef().Logical() && Forgetful(m') == Forgetful(m)
    && |m'.Mentions()| == |m.Mentions()|
    && forall k :: 0 <= k < |m.Mentions()| ==> m'.Mentions()[k].Logical() == m.Mentions()[k].Logical()
  }

  lemma {:induction false} MovedIsSame(w1: Work, m0: Item, m: Item)
    requires StartOk(w1) && RevisionsMoved(w1, m0, m) && w1.queue[0].source.Logical() == w1.queue[0].target.Logical()
    ensures SameButRevisions(m0, m)
  {
  }

  /** After the whole operation the named Task is what was asked for, and every other live item is unchanged:
      exactly, if it was not pending, and up to revisions, if it was. */
  lemma {:induction false} RevisionTakesEffect(g: Graph, o: Operation, rounds: nat, t: Task, r: Task)
    requires Newest(g) && Enter(ListsOf(g), o).Ok? && Superseding(g, t, r, Enter(ListsOf(g), o).value)
    requires Revises(o) && Lists(ListsOf(g), o, {}) && ApplyOne(ListsOf(g), o, rounds).Done?
    ensures var w' := ApplyOne(ListsOf(g), o, rounds).work;
      && WorkOk(w') && |Live(w')| == |LiveItems(g)|
      && forall i :: 0 <= i < |LiveItems(g)| ==> ItemAfter(LiveItems(g)[i], t, r, Live(w')[i])
  {
    var w, w1, w' := ListsOf(g), Enter(ListsOf(g), o).value, ApplyOne(ListsOf(g), o, rounds).work;
    assert w.(queue := []) == w;
    NewestIsTidy(g, {});
    assert {} + RefSet(Adds(o)) == {};
    EnterKeepsTidy(w, o, {});
    SupersedingShaped(g, t, r, w1);
    FinishedRunIsFaithful(w1, rounds, w');
    forall i | 0 <= i < |LiveItems(g)| ensures ItemAfter(LiveItems(g)[i], t, r, Live(w')[i]) {
      assert RevisionsMoved(w1, Live(w1)[i], Live(w')[i]);
      MovedIsSame(w1, Live(w1)[i], Live(w')[i]);
    }
  }

  ghost predicate ItemAfter(m: Item, t: Task, r: Task, m': Item) {
    if m == TaskItem(t) then SameButRevisions(TaskItem(r), m')
    else SameButRevisions(m, m') && (m.Status() != Pending ==> m' == m)
  }

  /** Cancelling takes the Task, and only it, off the active list, and keeps it listed as cancelled. */
  lemma {:induction false} CancelTakesEffect(w: Work, o: Operation)
    requires UniqueTasks(w) && o.op.CancelPendingTask? && Enter(w, o).Ok?
    ensures var t, w' := ActiveTaskById(w, o.taskId).value, Enter(w, o).value;
      && t.status == Pending && o.taskId == Some(t.id) && o.expectedRevision == Some(t.revision)
      && (forall r :: r in w'.activeTasks <==> r in w.activeTasks && r != t.AsRef())
      && |w'.tasks| == |w.tasks|
      && (forall i :: 0 <= i < |w.tasks| ==> w'.tasks[i] == if w.tasks[i] == t then t.(status := Cancelled) else w.tasks[i])
      && w'.groups == w.groups && w'.activeGroups == w.activeGroups
  {
    var t := ActiveTaskById(w, o.taskId).value;
    forall i | 0 <= i < |w.tasks| && w.tasks[i].AsRef() == t.AsRef() ensures w.tasks[i] == t { SameRefSameTask(w.tasks, w.tasks[i], t); }
  }

  /** Expanding replaces the Task by the Group and its children, and queues the rewrite of what depended on it. */
  lemma {:induction false} ExpandEdits(w: Work, o: Operation)
    requires UniqueTasks(w) && o.op.ExpandTask? && Enter(w, o).Ok?
    ensures o.group.Some?
    ensures var t, g, w' := ActiveTaskById(w, o.taskId).value, o.group.value, Enter(w, o).value;
      && t.status == Pending && t.shape == Expandable
      && g.dependsOn == t.dependsOn && g.supports == t.supports && g.required == t.required && g.intentBindingHash == t.intentBindingHash
      && w'.groups == w.groups + [g] && w'.activeGroups == w.activeGroups + [g.AsRef()]
      && w'.queue == [Entry(t.AsRef(), g.AsRef())]
      && (forall c :: c in g.children ==> c.task in w'.activeTasks)
      && (forall c :: c in o.childTasks ==> c in w'.tasks && c.AsRef() in w'.activeTasks && c.AsRef() != t.AsRef())
      && (forall r :: r in w'.activeTasks ==> (r in w.activeTasks && r != t.AsRef()) || r in ChildRefs(g.children))
  {
    var t, g := ActiveTaskById(w, o.taskId).value, o.group.value;
    var w1 := AppendGroup(Cancel(w, t), g);
    ChildrenAppended(w1, o.childTasks);
    OldStaysListed(w, t);
    forall c | c in o.childTasks ensures c.AsRef() in RefsOf(TaskItems(o.childTasks)) {
      var k :| 0 <= k < |o.childTasks| && o.childTasks[k] == c;
      assert RefsOf(TaskItems(o.childTasks))[k] == c.AsRef();
    }
    forall c | c in g.children ensures c.task in RefsOf(TaskItems(o.childTasks)) {
      var k :| 0 <= k < |g.children| && g.children[k] == c;
      assert ChildRefs(g.children)[k] == c.task;
      assert c.task in Elements(ChildRefs(g.children));
    }
    forall r | r in RefsOf(TaskItems(o.childTasks)) ensures r in ChildRefs(g.children) { assert r in Elements(RefsOf(TaskItems(o.childTasks))); }
  }

  lemma {:induction false} OldStaysListed(w: Work, t: Task)
    requires t in w.tasks
    ensures HasTask(Cancel(w, t).tasks, t.AsRef())
  {
    var k :| 0 <= k < |w.tasks| && w.tasks[k] == t;
    assert Cancel(w, t).tasks[k].AsRef() == t.AsRef();
  }

  lemma {:induction false} ChildrenAppended(w: Work, ts: seq<Task>)
    requires AppendTasks(w, ts).Ok?
    ensures var w' := AppendTasks(w, ts).value;
      && w'.tasks == w.tasks + ts && w'.activeTasks == w.activeTasks + RefsOf(TaskItems(ts))
      && w'.groups == w.groups && w'.activeGroups == w.activeGroups
    ensures forall c :: c in ts ==> !HasTask(w.tasks, c.AsRef())
    decreases |ts|
  {
    if ts != [] {
      var w1 := AppendTask(w, ts[0]).value;
      ChildrenAppended(w1, ts[1..]);
      assert ts == [ts[0]] + ts[1..];
      assert RefsOf(TaskItems(ts)) == [ts[0].AsRef()] + RefsOf(TaskItems(ts[1..]));
      forall c | c in ts[1..] ensures !HasTask(w.tasks, c.AsRef()) { HasTaskGrows(w.tasks, ts[0], c.AsRef()); }
    }
  }

  lemma {:induction false} HasTaskGrows(tasks: seq<Task>, t: Task, ref: Ref)
    ensures HasTask(tasks, ref) ==> HasTask(tasks + [t], ref)
  {
    if HasTask(tasks, ref) {
      var k :| 0 <= k < |tasks| && tasks[k].AsRef() == ref;
      assert (tasks + [t])[k].AsRef() == ref;
    }
  }

  /** Replacing a pending Group appends the given clean revision, makes it active in the old one's place, and
      queues the rewrite. */
  lemma {:induction false} ReplaceGroupEdits(w: Work, o: Operation)
    requires o.op.ReplacePendingGroup? && Enter(w, o).Ok?
    ensures o.group.Some?
    ensures var g, r, w' := ActiveGroupById(w, o.groupId).value, o.group.value, Enter(w, o).value;
      && g.status == Pending && o.expectedRevision == Some(g.revision)
      && r.AsRef().Logical() == g.AsRef().Logical() && r.revision == g.revision + 1 && r.status == Pending && r.winner.None?
      && w'.groups == w.groups + [r] && !HasGroup(w.groups, r.AsRef()) && w'.queue == [Entry(g.AsRef(), r.AsRef())]
      && r.AsRef() in w'.activeGroups && g.AsRef() !in w'.activeGroups
      && w'.tasks == w.tasks && w'.activeTasks == w.activeTasks
  {
    var g := ActiveGroupById(w, o.groupId).value;
    var k :| 0 <= k < |w.activeGroups| && w.activeGroups[k] == g.AsRef();
    assert Enter(w, o).value.activeGroups[k] == o.group.value.AsRef();
  }

  // ---------------------------------------------------------------- whole operations, the worklist run included

  /** The live item `m` as the run leaves it: exactly what it was, if it was not pending, and up to revisions, if it
      was. What it depended on is what it depends on; the successor stands for what was superseded, and is active. */
  ghost predicate CarriedAs(e: Entry, w': Work, m: Item, m': Item) {
    && (m.Status() != Pending ==> m' == m)
    && (m.Status() == Pending ==>
          && m'.AsRef().Logical() == m.AsRef().Logical() && Forgetful(m') == Forgetful(m)
          && |m'.Mentions()| == |m.Mentions()|
          && forall k :: 0 <= k < |m.Mentions()| ==> MentionCarried(e, w', m.Mentions()[k], m'.Mentions()[k]))
  }

  ghost predicate MentionCarried(e: Entry, w': Work, d: Ref, d': Ref) {
    d'.Logical() == Substitute(e, d).Logical() && (d == e.source ==> IsLive(w', d'))
  }

  ghost predicate Carried(e: Entry, w': Work, m: Item)
    requires WorkOk(w')
  {
    exists m' :: m' in Live(w') && CarriedAs(e, w', m, m')
  }

  lemma {:induction false} ItemIsCarried(w1: Work, rounds: nat, w': Work, i: nat)
    requires StartOk(w1) && IsLive(w1, w1.queue[0].target) && RunRounds(w1, rounds) == Done(w') && i < |Live(w1)|
    ensures WorkOk(w') && |Live(w')| == |Live(w1)| && CarriedAs(w1.queue[0], w', Live(w1)[i], Live(w')[i])
  {
    FinishedRunIsFaithful(w1, rounds, w');
    var e, m, m' := w1.queue[0], Live(w1)[i], Live(w')[i];
    assert RevisionsMoved(w1, m, m');
    var j := LiveAt(w1, e.target);
    forall k | 0 <= k < |m.Mentions()| && m.Status() == Pending ensures MentionCarried(e, w', m.Mentions()[k], m'.Mentions()[k]) {
      if m.Mentions()[k] == e.source {
        assert m'.Mentions()[k] == Live(w')[j].AsRef();
        ListedLive(w', j);
      }
    }
  }

  /** What an operation that queued a rewrite has done to the live graph once it has finished: every item but the one
      that left, and every one that entered, is carried over; nothing else is live; nothing pending depends on
      what left, nor on anything else that the run took out of use, and what was superseded is dead. */
  ghost predicate TakesEffect(w: Work, out: Item, ins: seq<Item>, e: Entry, w': Work) {
    && WorkOk(w) && WorkOk(w')
    && (forall m :: (m in Live(w) && m != out) || m in ins ==> Carried(e, w', m))
    && (forall m' :: m' in Live(w') ==> exists m :: ((m in Live(w) && m != out) || m in ins) && CarriedAs(e, w', m, m'))
    && (forall m' :: m' in Live(w') && m'.Status() == Pending ==> out.AsRef() !in m'.Mentions())
    && Dead(w', out.AsRef())
  }

  lemma {:induction false} RunTakesEffect(w: Work, w1: Work, out: Item, ins: seq<Item>, rounds: nat, w': Work)
    requires Edits(w, w1, Some(out), ins) && StartOk(w1) && IsLive(w1, w1.queue[0].target) && w1.queue[0].source == out.AsRef()
    requires RunRounds(w1, rounds) == Done(w')
    ensures TakesEffect(w, out, ins, w1.queue[0], w') && w1.tasks <= w'.tasks && w1.groups <= w'.groups
  {
    var e := w1.queue[0];
    FinishedRunIsFaithful(w1, rounds, w');
    DeadStays(w1, rounds, w');
    forall m | m in Live(w1) ensures Carried(e, w', m) {
      var i :| 0 <= i < |Live(w1)| && Live(w1)[i] == m;
      ItemIsCarried(w1, rounds, w', i);
    }
    forall m' | m' in Live(w') ensures exists m :: m in Live(w1) && CarriedAs(e, w', m, m') {
      var i :| 0 <= i < |Live(w')| && Live(w')[i] == m';
      ItemIsCarried(w1, rounds, w', i);
    }
    forall m' | m' in Live(w') && m'.Status() == Pending ensures out.AsRef() !in m'.Mentions() {
      var i :| 0 <= i < |Live(w')| && Live(w')[i] == m';
      if out.AsRef() in m'.Mentions() { assert RewriteTheorems.Superseded(w1, w', out.AsRef()); }
    }
  }

  /** How an operation that queues a rewrite enters the worklist. */
  ghost predicate EntersRun(w: Work, w1: Work, out: Item, ins: seq<Item>, e: Entry) {
    Edits(w, w1, Some(out), ins) && w1.queue == [e] && e.source == out.AsRef() && StartOk(w1) && IsLive(w1, e.target)
  }

  lemma {:induction false} ExpandStarts(w: Work, o: Operation, future: set<Ref>) returns (t: Task, g: Group)
    requires Tidy(w, future + RefSet(Adds(o))) && w.queue == [] && SoundOperation(o) && o.op.ExpandTask?
    requires IdsApart(o, future) && Lists(w, o, future + RefSet(Adds(o))) && Enter(w, o).Ok?
    ensures o.taskId == Some(t.id) && t.status == Pending && t.shape == Expandable && TaskItem(t) in Live(w)
    ensures o.group == Some(g) && g.dependsOn == t.dependsOn && Elements(ChildRefs(g.children)) == Elements(RefsOf(TaskItems(o.childTasks)))
    ensures EntersRun(w, Enter(w, o).value, TaskItem(t), Adds(o), Entry(t.AsRef(), g.AsRef()))
  {
    InRefSet(Adds(o));
    t, g := ExpandingEdits(w, o, future + RefSet(Adds(o)));
    EnterKeepsTidy(w, o, future);
  }

  lemma {:induction false} ReplaceGroupStarts(w: Work, o: Operation, future: set<Ref>) returns (g: Group, r: Group)
    requires Tidy(w, future + RefSet(Adds(o))) && w.queue == [] && SoundOperation(o) && o.op.ReplacePendingGroup?
    requires IdsApart(o, future) && Lists(w, o, future + RefSet(Adds(o))) && Enter(w, o).Ok?
    ensures ActiveGroupById(w, o.groupId) == Ok(g) && GroupItem(g) in Live(w) && o.group == Some(r)
    ensures EntersRun(w, Enter(w, o).value, GroupItem(g), [GroupItem(r)], Entry(g.AsRef(), r.AsRef()))
  {
    g, r := ActiveGroupById(w, o.groupId).value, o.group.value;
    assert GroupItem(r) == Replaces(o)[0] && GroupItem(r) in Brings(o);
    LiveMeans(w, GroupItem(g));
    NextIsNewer(w, GroupItem(g), GroupItem(r));
    SupersedingGroupEdits(w, g, r);
    assert Enter(w, o).value == SupersedeGroup(w, g, r);
    EnterKeepsTidy(w, o, future);
  }

  lemma {:induction false} ExpandLists(w: Work, o: Operation, w': Work)
    requires UniqueTasks(w) && o.op.ExpandTask? && Enter(w, o).Ok?
    requires Enter(w, o).value.tasks <= w'.tasks && Enter(w, o).value.groups <= w'.groups
    ensures Adds(o) == [GroupItem(o.group.value)] + TaskItems(o.childTasks)
    ensures w.groups + [o.group.value] <= w'.groups && forall c :: c in o.childTasks ==> c in w'.tasks
  {
    ExpandEdits(w, o);
  }

  /** The whole expansion: the Task is gone, the Group and its children are live, and every pending item that
      depended on the Task depends on the Group's active revision. */
  lemma {:induction false} ExpandTakesEffect(w: Work, o: Operation, future: set<Ref>, rounds: nat) returns (t: Task, g: Group)
    requires Tidy(w, future + RefSet(Adds(o))) && w.queue == [] && SoundOperation(o) && o.op.ExpandTask?
    requires IdsApart(o, future) && Lists(w, o, future + RefSet(Adds(o))) && ApplyOne(w, o, rounds).Done?
    ensures o.taskId == Some(t.id) && t.status == Pending && t.shape == Expandable && TaskItem(t) in Live(w)
    ensures o.group == Some(g) && g.dependsOn == t.dependsOn && Elements(ChildRefs(g.children)) == Elements(RefsOf(TaskItems(o.childTasks)))
    ensures Adds(o) == [GroupItem(g)] + TaskItems(o.childTasks)
    ensures TakesEffect(w, TaskItem(t), Adds(o), Entry(t.AsRef(), g.AsRef()), ApplyOne(w, o, rounds).work)
    ensures w.groups + [g] <= ApplyOne(w, o, rounds).work.groups && forall c :: c in o.childTasks ==> c in ApplyOne(w, o, rounds).work.tasks
  {
    DoneIsRun(w, o, rounds);
    t, g := ExpandStarts(w, o, future);
    RunTakesEffect(w, Enter(w, o).value, TaskItem(t), Adds(o), rounds, ApplyOne(w, o, rounds).work);
    ExpandLists(w, o, ApplyOne(w, o, rounds).work);
  }

  /** The whole replacement of a pending Group: its next revision is the one given, and every pending item that
      depended on the old one depends on the active revision. */
  lemma {:induction false} GroupReplacementTakesEffect(w: Work, o: Operation, future: set<Ref>, rounds: nat) returns (g: Group, r: Group)
    requires Tidy(w, future + RefSet(Adds(o))) && w.queue == [] && SoundOperation(o) && o.op.ReplacePendingGroup?
    requires IdsApart(o, future) && Lists(w, o, future + RefSet(Adds(o))) && ApplyOne(w, o, rounds).Done?
    ensures o.groupId == Some(g.id) && o.expectedRevision == Some(g.revision) && g.status == Pending && GroupItem(g) in Live(w)
    ensures o.group == Some(r) && r.AsRef() == g.AsRef().(revision := g.revision + 1) && r.status == Pending && r.winner.None?
    ensures TakesEffect(w, GroupItem(g), [GroupItem(r)], Entry(g.AsRef(), r.AsRef()), ApplyOne(w, o, rounds).work)
    ensures w.groups + [r] <= ApplyOne(w, o, rounds).work.groups
  {
    DoneIsRun(w, o, rounds);
    g, r := ReplaceGroupStarts(w, o, future);
    RunTakesEffect(w, Enter(w, o).value, GroupItem(g), [GroupItem(r)], rounds, ApplyOne(w, o, rounds).work);
    ReplaceGroupEdits(w, o);
  }
}
