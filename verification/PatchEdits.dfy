/** What the edit of each patch operation does to the live graph, before the worklist runs: items leave, items enter
    under new revisions, and the order of dependencies is kept if the entering items respect it. */
module PatchEdits {
  import opened Core
  import opened Items
  import opened Rewrite
  import opened RewritePass
  import opened RewriteRound
  import opened RewriteLog
  import opened RewriteRun
  import opened RewriteTheorems
  import opened RewriteRaising
  import opened RunOrder
  import opened Patch
  import opened PatchConserves

  // ---------------------------------------------------------------- an edit of the live graph

  /** `out` leaves the live graph, if given, and `ins` are listed and enter it. */
  ghost predicate Edits(w: Work, w1: Work, out: Option<Item>, ins: seq<Item>) {
    && WorkOk(w) && WorkOk(w1)
    && (forall m :: m in Live(w1) <==> (m in Live(w) && out != Some(m)) || m in ins)
    && (forall ref :: Known(w1, ref) <==> Known(w, ref) || ref in RefsOf(ins))
    && (out.Some? ==> out.value in Live(w))
  }

  /** An entering item is newer than all that has its logical id, which is what leaves or nothing at all. */
  ghost predicate Enters(w: Work, out: Option<Item>, ins: seq<Item>) {
    && (forall x :: x in ins ==> Newer(w, out, x.AsRef()))
    && forall x, y :: x in ins && y in ins && x.AsRef().Logical() == y.AsRef().Logical() ==> x.AsRef() == y.AsRef()
  }

  ghost predicate Newer(w: Work, out: Option<Item>, r: Ref) {
    forall ref :: Known(w, ref) && ref.Logical() == r.Logical() ==>
      out.Some? && out.value.AsRef().Logical() == r.Logical() && ref.revision < r.revision
  }

  lemma {:induction false} InRefs(items: seq<Item>, m: Item)
    requires m in items
    ensures m.AsRef() in RefsOf(items)
  {
    var i :| 0 <= i < |items| && items[i] == m;
    assert RefsOf(items)[i] == m.AsRef();
  }

  lemma {:induction false} OfRefs(items: seq<Item>, ref: Ref) returns (m: Item)
    requires ref in RefsOf(items)
    ensures m in items && m.AsRef() == ref
  {
    var i :| 0 <= i < |RefsOf(items)| && RefsOf(items)[i] == ref;
    m := items[i];
  }

  lemma {:induction false} LiveIsKnown(w: Work, m: Item)
    requires WorkOk(w) && m in Live(w)
    ensures IsLive(w, m.AsRef()) && Known(w, m.AsRef())
  {
    var i :| 0 <= i < |Live(w)| && Live(w)[i] == m;
    ListedLive(w, i);
    LiveRefs(w);
  }

  lemma {:induction false} NewestOf(w: Work, m: Item, ref: Ref)
    requires WorkOk(w) && LiveIsNewest(w) && m in Live(w) && Known(w, ref) && ref.Logical() == m.AsRef().Logical()
    ensures ref.revision <= m.AsRef().revision
  {
    var i :| 0 <= i < |Live(w)| && Live(w)[i] == m;
  }

  lemma {:induction false} SameIdSameItem(w: Work, m: Item, n: Item)
    requires WorkOk(w) && LiveIsNewest(w) && m in Live(w) && n in Live(w) && m.AsRef().Logical() == n.AsRef().Logical()
    ensures m == n
  {
    var i :| 0 <= i < |Live(w)| && Live(w)[i] == m;
    var k :| 0 <= k < |Live(w)| && Live(w)[k] == n;
    SameNewest(w, i, k);
  }

  lemma {:induction false} EditKeepsNewestOf(w: Work, w1: Work, out: Option<Item>, ins: seq<Item>, m: Item, ref: Ref)
    requires Edits(w, w1, out, ins) && Enters(w, out, ins) && LiveIsNewest(w)
    requires m in Live(w1) && Known(w1, ref) && ref.Logical() == m.AsRef().Logical()
    ensures ref.revision <= m.AsRef().revision
  {
    if m in ins {
      if !Known(w, ref) { var x := OfRefs(ins, ref); }
    } else {
      if Known(w, ref) {
        NewestOf(w, m, ref);
      } else {
        var x := OfRefs(ins, ref);
        LiveIsKnown(w, m);
        assert Newer(w, out, x.AsRef());
        SameIdSameItem(w, m, out.value);
        assert false;
      }
    }
  }

  lemma {:induction false} EditKeepsTidy(w: Work, w1: Work, out: Option<Item>, ins: seq<Item>, before: set<Ref>, future: set<Ref>)
    requires Edits(w, w1, out, ins) && Enters(w, out, ins) && Tidy(w, before)
    requires (forall f :: f in before ==> f in future || f in RefsOf(ins)) && future <= before
    requires forall x :: x in ins && x.Status() == Pending ==> MentionsListed(w1, future, x)
    requires forall f, x :: f in future && x in ins ==> f.Logical() != x.AsRef().Logical()
    ensures Tidy(w1, future)
  {
    forall i, ref | 0 <= i < |Live(w1)| && Known(w1, ref) && ref.Logical() == Live(w1)[i].AsRef().Logical()
      ensures ref.revision <= Live(w1)[i].AsRef().revision
    {
      EditKeepsNewestOf(w, w1, out, ins, Live(w1)[i], ref);
    }
    forall m | m in Live(w1) && m.Status() == Pending ensures MentionsListed(w1, future, m) {
      if m !in ins { assert MentionsListed(w, before, m); }
    }
    forall f | f in future ensures NewId(w1, f.Logical()) {
      forall ref | Known(w1, ref) ensures ref.Logical() != f.Logical() {
        if Known(w, ref) { assert NewId(w, f.Logical()); } else { var x := OfRefs(ins, ref); }
      }
    }
  }

  lemma {:induction false} LiveAfterEdit(w: Work, w1: Work, out: Option<Item>, ins: seq<Item>, ref: Ref)
    requires Edits(w, w1, out, ins) && Enters(w, out, ins) && IsLive(w1, ref) && Known(w, ref)
    ensures IsLive(w, ref) && (out.Some? ==> ref != out.value.AsRef())
  {
    var j := LiveAt(w1, ref);
    var m := Live(w1)[j];
    assert m in Live(w1);
    if m !in ins { LiveIsKnown(w, m); }
    if out.Some? && ref == out.value.AsRef() {
      var i :| 0 <= i < |Live(w)| && Live(w)[i] == m;
      var k :| 0 <= k < |Live(w)| && Live(w)[k] == out.value;
      SameRefSameItem(w, i, k);
    }
  }

  /** Nothing is forgotten, and what is dead stays dead. */
  ghost predicate Descends(w: Work, w': Work) {
    (forall ref :: Known(w, ref) ==> Known(w', ref)) && (forall ref :: Dead(w, ref) ==> Dead(w', ref))
  }

  lemma {:induction false} EditDescends(w: Work, w1: Work, out: Option<Item>, ins: seq<Item>)
    requires Edits(w, w1, out, ins) && Enters(w, out, ins)
    ensures Descends(w, w1)
  {
    forall ref | Dead(w, ref) ensures Dead(w1, ref) { if IsLive(w1, ref) { LiveAfterEdit(w, w1, out, ins, ref); } }
  }

  /** With a rewrite queued from what leaves to something that enters, the lists are ready for the worklist. */
  lemma {:induction false} EditStarts(w: Work, w1: Work, out: Item, ins: seq<Item>, e: Entry, future: set<Ref>)
    requires Edits(w, w1, Some(out), ins) && Enters(w, Some(out), ins) && Tidy(w1, future)
    requires w1.queue == [e] && e.source == out.AsRef() && e.target in RefsOf(ins)
    ensures StartOk(w1)
  {
    TidyIsSettled(w1, future);
    LiveIsKnown(w, out);
    var x := OfRefs(ins, e.target);
    assert Newer(w, Some(out), e.target);
    if IsLive(w1, e.source) { LiveAfterEdit(w, w1, Some(out), ins, e.source); }
  }

  lemma {:induction false} EditOrders(w: Work, w1: Work, out: Option<Item>, ins: seq<Item>, rank: LogicalId -> nat)
    requires Edits(w, w1, out, ins) && Enters(w, out, ins) && Ordered(w, rank)
    requires forall x :: x in ins && x.Status() == Pending ==> ItemOrdered(w, rank, x)
    ensures Ordered(w1, rank)
  {
    EditDescends(w, w1, out, ins);
    forall m | m in Live(w1) && m.Status() == Pending ensures ItemOrdered(w1, rank, m) {
      assert ItemOrdered(w, rank, m);
      forall d | d in m.Mentions() ensures Below(w1, rank, d, m.AsRef().Logical()) { assert Below(w, rank, d, m.AsRef().Logical()); }
    }
  }

  lemma {:induction false} EditStartsOrdered(w: Work, w1: Work, out: Item, ins: seq<Item>, e: Entry, rank: LogicalId -> nat)
    requires Edits(w, w1, Some(out), ins) && Enters(w, Some(out), ins) && Ordered(w, rank) && StartOk(w1)
    requires forall x :: x in ins && x.Status() == Pending ==> ItemOrdered(w, rank, x)
    requires w1.queue == [e] && e.source == out.AsRef() && rank(e.target.Logical()) <= rank(e.source.Logical())
    ensures StartOrdered(w1, rank)
  {
    EditOrders(w, w1, Some(out), ins, rank);
    LiveIsKnown(w, out);
    forall m, d | m in Live(w1) && m.Status() == Pending && d in m.Mentions()
      ensures Below(w1, rank, Substitute(e, d), m.AsRef().Logical())
    {
      assert ItemOrdered(w1, rank, m) && ItemOrdered(w, rank, m);
      assert Below(w1, rank, d, m.AsRef().Logical()) && Below(w, rank, d, m.AsRef().Logical());
    }
  }

  // ---------------------------------------------------------------- membership in the live graph

  ghost predicate ListedLiveItem(w: Work, m: Item) {
    match m
    case TaskItem(t) => t in w.tasks && t.AsRef() in w.activeTasks
    case GroupItem(g) => g in w.groups && g.AsRef() in w.activeGroups
  }

  lemma {:induction false} LiveMeans(w: Work, m: Item)
    requires WorkOk(w)
    ensures m in Live(w) <==> ListedLiveItem(w, m)
  {
    if m in Live(w) {
      var i :| 0 <= i < |Live(w)| && Live(w)[i] == m;
      if i < |w.activeTasks| { assert m == At(TaskLane(w), i); } else { assert m == At(GroupLane(w), i - |w.activeTasks|); }
    } else if ListedLiveItem(w, m) {
      match m
      case TaskItem(t) => LiveTask(w, t);
      case GroupItem(g) => LiveGroup(w, g);
    }
  }

  lemma {:induction false} KnownAppended(items: seq<Item>, m: Item)
    ensures forall ref :: HasRef(items + [m], ref) <==> HasRef(items, ref) || ref == m.AsRef()
  {
    forall ref ensures HasRef(items + [m], ref) <==> HasRef(items, ref) || ref == m.AsRef() {
      if HasRef(items, ref) {
        var i :| 0 <= i < |items| && items[i].AsRef() == ref;
        assert (items + [m])[i].AsRef() == ref;
      }
      if ref == m.AsRef() { assert (items + [m])[|items|].AsRef() == ref; }
    }
  }

  lemma {:induction false} OneRef(m: Item)
    ensures forall ref :: ref in RefsOf([m]) <==> ref == m.AsRef()
  {
    assert RefsOf([m]) == [m.AsRef()];
  }

  /** Some lane lists one more item, under a reference that it did not have. */
  lemma {:induction false} LaneGrows(l: Lane, m: Item, active: seq<Ref>)
    requires LaneOk(l) && !HasRef(l.items, m.AsRef()) && forall r :: r in active ==> r in l.active || r == m.AsRef()
    ensures LaneOk(Lane(l.items + [m], active))
  {
    AppendUnique(l.items, m);
    KnownAppended(l.items, m);
    forall i | 0 <= i < |active| ensures HasRef(l.items + [m], active[i]) {
      if active[i] in l.active { var k :| 0 <= k < |l.active| && l.active[k] == active[i]; }
    }
  }

  // ---------------------------------------------------------------- one more Task or Group

  lemma {:induction false} TaskListed(w: Work, t: Task, active: seq<Ref>, queue: seq<Entry>)
    requires WorkOk(w) && !Known(w, t.AsRef()) && forall r :: r in active ==> r in w.activeTasks || r == t.AsRef()
    ensures var w1 := w.(tasks := w.tasks + [t], activeTasks := active, queue := queue);
      WorkOk(w1) && (forall ref :: Known(w1, ref) <==> Known(w, ref) || ref in RefsOf([TaskItem(t)]))
  {
    assert TaskItems(w.tasks + [t]) == TaskItems(w.tasks) + [TaskItem(t)];
    LaneGrows(TaskLane(w), TaskItem(t), active);
    KnownAppended(TaskItems(w.tasks), TaskItem(t));
    OneRef(TaskItem(t));
  }

  lemma {:induction false} GroupListed(w: Work, g: Group, active: seq<Ref>, queue: seq<Entry>)
    requires WorkOk(w) && !Known(w, g.AsRef()) && forall r :: r in active ==> r in w.activeGroups || r == g.AsRef()
    requires forall c :: c in g.children ==> c.task.kind == TaskKind
    ensures var w1 := w.(groups := w.groups + [g], activeGroups := active, queue := queue);
      WorkOk(w1) && (forall ref :: Known(w1, ref) <==> Known(w, ref) || ref in RefsOf([GroupItem(g)]))
  {
    assert GroupItems(w.groups + [g]) == GroupItems(w.groups) + [GroupItem(g)];
    LaneGrows(GroupLane(w), GroupItem(g), active);
    KnownAppended(GroupItems(w.groups), GroupItem(g));
    OneRef(GroupItem(g));
  }

  lemma {:induction false} AddingEdits(w: Work, t: Task)
    requires WorkOk(w) && !Known(w, t.AsRef())
    ensures AppendTask(w, t).Ok? && Edits(w, AppendTask(w, t).value, None, [TaskItem(t)])
  {
    HasTaskIsHasRef(w.tasks, t.AsRef());
    var w1 := AppendTask(w, t).value;
    TaskListed(w, t, w1.activeTasks, w.queue);
    forall m ensures m in Live(w1) <==> m in Live(w) || m in [TaskItem(t)] {
      LiveMeans(w, m);
      LiveMeans(w1, m);
      if m.TaskItem? && m.task in w1.tasks && m.task.AsRef() == t.AsRef() { SameRefSameTask(w1.tasks, m.task, t); }
    }
  }

  lemma {:induction false} AddingGroupEdits(w: Work, g: Group)
    requires WorkOk(w) && !Known(w, g.AsRef()) && forall c :: c in g.children ==> c.task.kind == TaskKind
    ensures Edits(w, AppendGroup(w, g), None, [GroupItem(g)])
  {
    var w1 := AppendGroup(w, g);
    GroupListed(w, g, w1.activeGroups, w.queue);
    forall m ensures m in Live(w1) <==> m in Live(w) || m in [GroupItem(g)] {
      LiveMeans(w, m);
      LiveMeans(w1, m);
      if m.GroupItem? && m.group in w1.groups && m.group.AsRef() == g.AsRef() { SameRefSameGroup(w1.groups, m.group, g); }
    }
  }

  lemma {:induction false} InReplaced(refs: seq<Ref>, e: Entry, ref: Ref)
    ensures ref in ReplaceRef(refs, e) ==> (ref in refs && ref != e.source) || ref == e.target
    ensures ref in refs && ref != e.source ==> ref in ReplaceRef(refs, e)
  {
    if ref in refs && ref != e.source {
      var i :| 0 <= i < |refs| && refs[i] == ref;
      assert ReplaceRef(refs, e)[i] == ref;
    }
  }

  lemma {:induction false} TargetLive(refs: seq<Ref>, e: Entry)
    requires e.source in refs
    ensures e.target in ReplaceRef(refs, e)
  {
    var i :| 0 <= i < |refs| && refs[i] == e.source;
    assert ReplaceRef(refs, e)[i] == e.target;
  }

  lemma {:induction false} SupersededActive(w: Work, t: Task, r: Task, x: Task)
    requires UniqueTasks(w) && t in w.tasks && t.AsRef() in w.activeTasks && !HasTask(w.tasks, r.AsRef())
    ensures x in w.tasks + [r] && x.AsRef() in ReplaceRef(w.activeTasks, Entry(t.AsRef(), r.AsRef()))
       <==> (x in w.tasks && x.AsRef() in w.activeTasks && x != t) || x == r
  {
    var e := Entry(t.AsRef(), r.AsRef());
    InReplaced(w.activeTasks, e, x.AsRef());
    TargetLive(w.activeTasks, e);
    if x in w.tasks {
      var k :| 0 <= k < |w.tasks| && w.tasks[k] == x;
      if x.AsRef() == t.AsRef() { SameRefSameTask(w.tasks, x, t); }
    }
  }

  lemma {:induction false} SupersededGroupActive(w: Work, g: Group, r: Group, x: Group)
    requires UniqueRefs(GroupItems(w.groups)) && g in w.groups && g.AsRef() in w.activeGroups && !HasGroup(w.groups, r.AsRef())
    ensures x in w.groups + [r] && x.AsRef() in ReplaceRef(w.activeGroups, Entry(g.AsRef(), r.AsRef()))
       <==> (x in w.groups && x.AsRef() in w.activeGroups && x != g) || x == r
  {
    var e := Entry(g.AsRef(), r.AsRef());
    InReplaced(w.activeGroups, e, x.AsRef());
    TargetLive(w.activeGroups, e);
    if x in w.groups {
      var k :| 0 <= k < |w.groups| && w.groups[k] == x;
      if x.AsRef() == g.AsRef() { SameRefSameGroup(w.groups, x, g); }
    }
  }

  lemma {:induction false} SupersedingEdits(w: Work, t: Task, r: Task)
    requires WorkOk(w) && TaskItem(t) in Live(w) && !Known(w, r.AsRef())
    ensures Edits(w, Supersede(w, t, r), Some(TaskItem(t)), [TaskItem(r)])
  {
    var w1, e := Supersede(w, t, r), Entry(t.AsRef(), r.AsRef());
    forall ref | ref in w1.activeTasks ensures ref in w.activeTasks || ref == r.AsRef() { InReplaced(w.activeTasks, e, ref); }
    TaskListed(w, r, w1.activeTasks, [e]);
    HasTaskIsHasRef(w.tasks, r.AsRef());
    LiveMeans(w, TaskItem(t));
    LiveIsKnown(w, TaskItem(t));
    TargetLive(w.activeTasks, e);
    forall m ensures m in Live(w1) <==> (m in Live(w) && m != TaskItem(t)) || m in [TaskItem(r)] {
      LiveMeans(w, m);
      LiveMeans(w1, m);
      if m.TaskItem? { SupersededActive(w, t, r, m.task); }
    }
  }

  /** The edit of `replace_pending_group`. */
  function SupersedeGroup(w: Work, g: Group, r: Group): Work {
    var e := Entry(g.AsRef(), r.AsRef());
    w.(groups := w.groups + [r], activeGroups := ReplaceRef(w.activeGroups, e), queue := [e])
  }

  lemma {:induction false} SupersedingGroupEdits(w: Work, g: Group, r: Group)
    requires WorkOk(w) && GroupItem(g) in Live(w) && !Known(w, r.AsRef()) && forall c :: c in r.children ==> c.task.kind == TaskKind
    ensures Edits(w, SupersedeGroup(w, g, r), Some(GroupItem(g)), [GroupItem(r)])
  {
    var w1, e := SupersedeGroup(w, g, r), Entry(g.AsRef(), r.AsRef());
    forall ref | ref in w1.activeGroups ensures ref in w.activeGroups || ref == r.AsRef() { InReplaced(w.activeGroups, e, ref); }
    GroupListed(w, r, w1.activeGroups, [e]);
    HasGroupIsHasRef(w.groups, r.AsRef());
    LiveMeans(w, GroupItem(g));
    LiveIsKnown(w, GroupItem(g));
    TargetLive(w.activeGroups, e);
    forall m ensures m in Live(w1) <==> (m in Live(w) && m != GroupItem(g)) || m in [GroupItem(r)] {
      LiveMeans(w, m);
      LiveMeans(w1, m);
      if m.GroupItem? { SupersededGroupActive(w, g, r, m.group); }
    }
  }

  // ---------------------------------------------------------------- one Task cancelled

  lemma {:induction false} SameRefsSameKnown(items: seq<Item>, items': seq<Item>)
    requires |items'| == |items| && forall i :: 0 <= i < |items| ==> items'[i].AsRef() == items[i].AsRef()
    ensures forall ref :: HasRef(items', ref) <==> HasRef(items, ref)
    ensures UniqueRefs(items) ==> UniqueRefs(items')
  {
    forall ref ensures HasRef(items', ref) <==> HasRef(items, ref) {
      if HasRef(items, ref) { var i :| 0 <= i < |items| && items[i].AsRef() == ref; assert items'[i].AsRef() == ref; }
      if HasRef(items', ref) { var i :| 0 <= i < |items| && items'[i].AsRef() == ref; assert items[i].AsRef() == ref; }
    }
  }

  lemma {:induction false} CancelledActive(w: Work, t: Task, x: Task)
    requires UniqueTasks(w) && t in w.tasks
    ensures x in Cancel(w, t).tasks && x.AsRef() in Cancel(w, t).activeTasks <==> x in w.tasks && x.AsRef() in w.activeTasks && x != t
  {
    var w1 := Cancel(w, t);
    if x in w1.tasks {
      var k :| 0 <= k < |w1.tasks| && w1.tasks[k] == x;
      assert w.tasks[k].AsRef() == x.AsRef();
    }
    if x in w.tasks {
      var k :| 0 <= k < |w.tasks| && w.tasks[k] == x;
      if x.AsRef() == t.AsRef() { SameRefSameTask(w.tasks, x, t); } else { assert w1.tasks[k] == x; }
    }
  }

  lemma {:induction false} CancellingEdits(w: Work, t: Task)
    requires WorkOk(w) && TaskItem(t) in Live(w)
    ensures Edits(w, Cancel(w, t), Some(TaskItem(t)), [])
  {
    var w1 := Cancel(w, t);
    LiveMeans(w, TaskItem(t));
    SameRefsSameKnown(TaskItems(w.tasks), TaskItems(w1.tasks));
    forall i | 0 <= i < |w1.activeTasks| ensures HasRef(TaskItems(w1.tasks), w1.activeTasks[i]) {
      assert w1.activeTasks[i] in w1.activeTasks;
      var k :| 0 <= k < |w.activeTasks| && w.activeTasks[k] == w1.activeTasks[i];
    }
    assert LaneOk(TaskLane(w1)) && GroupLane(w1) == GroupLane(w);
    forall m ensures m in Live(w1) <==> m in Live(w) && m != TaskItem(t) {
      LiveMeans(w, m);
      LiveMeans(w1, m);
      if m.TaskItem? { CancelledActive(w, t, m.task); }
    }
  }

  // ---------------------------------------------------------------- several edits

  lemma {:induction false} EditsThen(a: Work, b: Work, c: Work, out: Option<Item>, first: seq<Item>, second: seq<Item>)
    requires Edits(a, b, out, first) && Edits(b, c, None, second)
    ensures Edits(a, c, out, first + second)
  {
    assert RefsOf(first + second) == RefsOf(first) + RefsOf(second);
  }

  lemma {:induction false} NothingEdited(w: Work)
    requires WorkOk(w)
    ensures Edits(w, w, None, [])
  {
  }

  lemma {:induction false} NewTaskUnknown(w: Work, t: Task)
    requires !HasTask(w.tasks, t.AsRef())
    ensures !Known(w, t.AsRef())
  {
    HasTaskIsHasRef(w.tasks, t.AsRef());
    KindOfLane(w, t.AsRef());
  }

  lemma {:induction false} AddingAllEdits(w: Work, ts: seq<Task>)
    requires WorkOk(w) && AppendTasks(w, ts).Ok?
    ensures Edits(w, AppendTasks(w, ts).value, None, TaskItems(ts))
    decreases |ts|
  {
    if ts == [] {
      NothingEdited(w);
    } else {
      NewTaskUnknown(w, ts[0]);
      AddingEdits(w, ts[0]);
      var w1 := AppendTask(w, ts[0]).value;
      AddingAllEdits(w1, ts[1..]);
      EditsThen(w, w1, AppendTasks(w, ts).value, None, [TaskItem(ts[0])], TaskItems(ts[1..]));
      assert TaskItems(ts) == [TaskItem(ts[0])] + TaskItems(ts[1..]);
    }
  }
}
