/** Readiness (`ready_tasks`), the rule that live dependencies stay reachable or completed
    (`_validate_live_dependency_targets`), and the progress they give: an accepted graph is never stuck. */
module Ready {
  import opened Core
  import opened Items
  import opened Acyclic
  import opened Order
  import opened Validation

  predicate DependenciesDone(g: Graph, refs: seq<Ref>) {
    forall i :: 0 <= i < |refs| ==> Resolve(g, refs[i]).Some? && Resolve(g, refs[i]).value.Status() == Completed
  }

  predicate IsReady(g: Graph, t: Task) {
    && t.shape == Executable && t.status == Pending && t.activeAttempt.None? && t.bindingState != Invalidated
    && DependenciesDone(g, t.dependsOn)
  }

  function ReadyAmong(g: Graph, live: seq<Item>): (r: seq<Task>)
    ensures forall t :: t in r <==> TaskItem(t) in live && IsReady(g, t)
  {
    if live == [] then []
    else
      var rest := ReadyAmong(g, live[1..]);
      assert live == [live[0]] + live[1..];
      if live[0].TaskItem? && IsReady(g, live[0].task) then [live[0].task] + rest else rest
  }

  /** Higher priority first, then required before optional, then by id. */
  predicate ReadyBefore(a: Task, b: Task) {
    || a.priority > b.priority
    || (a.priority == b.priority
        && ((a.required && !b.required) || (a.required == b.required && LessEq(a.id, b.id))))
  }

  lemma {:induction false} ReadyOrder()
    ensures Preorder(ReadyBefore)
  {
    forall x: Task, y: Task ensures Comparable(ReadyBefore, x, y) { LessEqTotal(x.id, y.id); }
    forall x: Task, y: Task, z: Task ensures Transits(ReadyBefore, x, y, z) {
      if LessEq(x.id, y.id) && LessEq(y.id, z.id) { LessEqTransitive(x.id, y.id, z.id); }
    }
  }

  /** The Tasks that may run now, best first; an invalid graph raises instead. */
  function ReadyTasks(g: Graph): Result<seq<Task>, GraphError> {
    match Problem(g, false)
    case Some(e) => Err(e)
    case None =>
      match ResolveActive(TaskItems(g.tasks), g.activeTasks, {}, InvalidActiveTask)
      case Err(e) => Err(e)
      case Ok(live) => Ok(Sort(ReadyAmong(g, live), ReadyBefore))
  }

  ghost function ReadyList(g: Graph): seq<Task> {
    match ReadyTasks(g)
    case Ok(tasks) => tasks
    case Err(_) => []
  }

  /** A pending executable Task that nobody attempts and the current Intent still binds. */
  predicate IdleTask(m: Item) {
    m.TaskItem? && m.task.shape == Executable && m.task.status == Pending && m.task.activeAttempt.None? && m.task.bindingState != Invalidated
  }

  lemma {:induction false} ReadyTasksAre(g: Graph)
    ensures ReadyTasks(g).Ok? <==> Valid(g, false)
    ensures Valid(g, false) ==>
      && Sorted(ReadyList(g), ReadyBefore)
      && forall t :: t in ReadyList(g) <==> TaskItem(t) in LiveItems(g) && IsReady(g, t)
  {
    AcceptedIffValid(g, false);
    if Valid(g, false) {
      ResolvedIff(g);
      var live := ResolveActive(TaskItems(g.tasks), g.activeTasks, {}, InvalidActiveTask).value;
      ReadyOrder();
      SortSorts(ReadyAmong(g, live), ReadyBefore);
      ResolveActiveMeans(TaskItems(g.tasks), g.activeTasks, InvalidActiveTask);
      forall t: Task ensures TaskItem(t) in live <==> TaskItem(t) in LiveItems(g) { TasksLiveAmongTasks(g, t); }
    }
  }

  lemma {:induction false} TasksLiveAmongTasks(g: Graph, t: Task)
    requires Shaped(g)
    ensures TaskItem(t) in LiveItems(g) <==> TaskItem(t) in Named(TaskItems(g.tasks), g.activeTasks)
  {
  }

  /** At most one occurrence of each Task. */
  ghost predicate Once(s: seq<Task>) {
    forall x :: multiset(s)[x] <= 1
  }

  lemma {:induction false} ReadyOnce(g: Graph, live: seq<Item>)
    requires forall i, j :: 0 <= i < j < |live| ==> live[i] != live[j]
    ensures Once(ReadyAmong(g, live))
    decreases |live|
  {
    if live != [] {
      forall i, j | 0 <= i < j < |live[1..]| ensures live[1..][i] != live[1..][j] { assert live[i + 1] != live[j + 1]; }
      ReadyOnce(g, live[1..]);
      var all, rest := ReadyAmong(g, live), ReadyAmong(g, live[1..]);
      if all != rest {
        HeadAndTail(all);
        assert all[1..] == rest;
        assert live[0] !in live[1..];
        assert all[0] !in rest;
        forall x ensures multiset(all)[x] <= 1 { if x == all[0] { assert x !in multiset(rest); } }
      }
    }
  }

  lemma {:induction false} ReadyListOnce(g: Graph)
    requires Valid(g, false)
    ensures Once(ReadyList(g))
  {
    AcceptedIffValid(g, false);
    ResolvedIff(g);
    ResolveActiveMeans(TaskItems(g.tasks), g.activeTasks, InvalidActiveTask);
    var live := Named(TaskItems(g.tasks), g.activeTasks);
    forall i, j | 0 <= i < j < |live| ensures live[i] != live[j] { assert RefsOf(live)[i] != RefsOf(live)[j]; }
    ReadyOnce(g, live);
    ReadyOrder();
    SortSorts(ReadyAmong(g, live), ReadyBefore);
  }

  /** Some listed item, a Task or a Group, has this reference and is completed. */
  ghost predicate CompletedRef(g: Graph, d: Ref) {
    exists m :: m in AllItems(g) && m.AsRef() == d && m.Status() == Completed
  }

  lemma {:induction false} ResolvedCompleted(g: Graph, d: Ref)
    requires Shaped(g)
    ensures Resolve(g, d).Some? && Resolve(g, d).value.Status() == Completed <==> CompletedRef(g, d)
  {
    UniqueAll(g);
    if m :| m in AllItems(g) && m.AsRef() == d && m.Status() == Completed {
      LookupUnique(AllItems(g), m);
      LookupUnique(AllItems(g), Resolve(g, d).value);
    }
  }

  lemma {:induction false} DoneMeans(g: Graph, refs: seq<Ref>)
    requires Shaped(g)
    ensures DependenciesDone(g, refs) <==> forall d :: d in refs ==> CompletedRef(g, d)
  {
    forall i | 0 <= i < |refs| ensures Resolve(g, refs[i]).Some? && Resolve(g, refs[i]).value.Status() == Completed <==> CompletedRef(g, refs[i]) {
      ResolvedCompleted(g, refs[i]);
    }
    if DependenciesDone(g, refs) {
      forall d | d in refs ensures CompletedRef(g, d) { var i :| 0 <= i < |refs| && refs[i] == d; }
    }
  }

  /** An active executable Task that is pending and without an Attempt, bound by the current Intent or retained from
      an earlier one, with all its dependencies completed. */
  ghost predicate MayStart(g: Graph, t: Task)
    requires Shaped(g)
  {
    && TaskItem(t) in LiveItems(g)
    && t.shape == Executable && t.status == Pending && t.activeAttempt.None? && t.bindingState in {Current, Retained}
    && forall d :: d in t.dependsOn ==> CompletedRef(g, d)
  }

  /** The result holds each Task that may start once, and no other. The higher priority comes first, at the same
      priority what is required, then the smaller id. */
  lemma {:induction false} ReadyTasksMeans(g: Graph)
    ensures ReadyTasks(g).Ok? <==> Valid(g, false)
    ensures Valid(g, false) ==> Once(ReadyList(g)) && forall t :: t in ReadyList(g) <==> MayStart(g, t)
    ensures forall i, j :: 0 <= i < j < |ReadyList(g)| ==>
      var a, b := ReadyList(g)[i], ReadyList(g)[j];
      && a.priority >= b.priority && (a.priority == b.priority && b.required ==> a.required)
      && (a.priority == b.priority && a.required == b.required ==> LessEq(a.id, b.id))
  {
    ReadyTasksAre(g);
    if Valid(g, false) {
      ReadyListOnce(g);
      forall t: Task ensures DependenciesDone(g, t.dependsOn) <==> forall d :: d in t.dependsOn ==> CompletedRef(g, d) { DoneMeans(g, t.dependsOn); }
    }
  }

  // ---------------------------------------------------------------- live dependency targets

  predicate TargetsOk(g: Graph, live: seq<Item>) {
    forall i :: 0 <= i < |live| ==> MentionsOk(g, live[i].Mentions(), RefsOf(live))
  }

  predicate MentionsOk(g: Graph, refs: seq<Ref>, active: seq<Ref>) {
    forall i :: 0 <= i < |refs| ==> refs[i] in active || (Resolve(g, refs[i]).Some? && Resolve(g, refs[i]).value.Status() == Completed)
  }

  /** What `apply_graph_patch` accepts. */
  ghost predicate Accepted(g: Graph) {
    Valid(g, false) && TargetsLive(g)
  }

  /** Whatever a live item mentions is active or completed. */
  ghost predicate TargetsLive(g: Graph)
    requires Shaped(g)
  {
    forall m, d :: m in LiveItems(g) && d in m.Mentions() ==> d in g.activeTasks || d in g.activeGroups || CompletedRef(g, d)
  }

  lemma {:induction false} TargetsMean(g: Graph)
    requires Shaped(g)
    ensures TargetsOk(g, LiveItems(g)) <==> TargetsLive(g)
  {
    var live := LiveItems(g);
    assert RefsOf(live) == g.activeTasks + g.activeGroups;
    forall m | m in live ensures MentionsOk(g, m.Mentions(), RefsOf(live)) <==>
      forall d :: d in m.Mentions() ==> d in g.activeTasks || d in g.activeGroups || CompletedRef(g, d)
    {
      MentionsMean(g, m.Mentions(), RefsOf(live));
    }
    if TargetsOk(g, live) {
      forall m | m in live ensures MentionsOk(g, m.Mentions(), RefsOf(live)) { var i :| 0 <= i < |live| && live[i] == m; }
    }
  }

  lemma {:induction false} MentionsMean(g: Graph, refs: seq<Ref>, active: seq<Ref>)
    requires Shaped(g)
    ensures MentionsOk(g, refs, active) <==> forall d :: d in refs ==> d in active || CompletedRef(g, d)
  {
    forall i | 0 <= i < |refs| ensures Resolve(g, refs[i]).Some? && Resolve(g, refs[i]).value.Status() == Completed <==> CompletedRef(g, refs[i]) {
      ResolvedCompleted(g, refs[i]);
    }
    if MentionsOk(g, refs, active) {
      forall d | d in refs ensures d in active || CompletedRef(g, d) { var i :| 0 <= i < |refs| && refs[i] == d; }
    }
  }

  // ---------------------------------------------------------------- progress

  lemma {:induction false} UniqueAll(g: Graph)
    requires Shaped(g)
    ensures UniqueRefs(AllItems(g))
    ensures forall m :: m in LiveItems(g) ==> m in AllItems(g)
  {
  }

  lemma {:induction false} FindLive(g: Graph, m: Item)
    requires Shaped(g) && m in LiveItems(g)
    ensures FindItem(LiveItems(g), m.AsRef()) == Some(m) && Resolve(g, m.AsRef()) == Some(m)
  {
    UniqueAll(g);
    LookupUnique(AllItems(g), m);
    LookupUnique(AllItems(g), FindItem(LiveItems(g), m.AsRef()).value);
    LookupUnique(AllItems(g), Resolve(g, m.AsRef()).value);
  }

  /** The edges of a live item are its mentions of live items. */
  lemma {:induction false} EdgesOfLive(g: Graph, m: Item)
    requires Shaped(g) && m in LiveItems(g)
    ensures m.AsRef() in EdgesOf(LiveItems(g))
    ensures forall d :: d in EdgesOf(LiveItems(g))[m.AsRef()] <==> d in m.Mentions() && d in RefsOf(LiveItems(g))
  {
    var live := LiveItems(g);
    FindLive(g, m);
    var i :| 0 <= i < |live| && live[i] == m;
    assert RefsOf(live)[i] == m.AsRef();
  }

  lemma {:induction false} LiveOfRef(g: Graph, ref: Ref) returns (m: Item)
    requires Shaped(g) && ref in RefsOf(LiveItems(g))
    ensures m in LiveItems(g) && m.AsRef() == ref
  {
    var live := LiveItems(g);
    var i :| 0 <= i < |live| && RefsOf(live)[i] == ref;
    m := live[i];
  }

  /** All that this item waits for is completed. */
  predicate Unblocked(g: Graph, m: Item) {
    DependenciesDone(g, m.Mentions())
  }

  /** A dependency chain over live items, from one to another. */
  ghost predicate Reaches(g: Graph, a: Item, b: Item)
    requires Shaped(g)
  {
    Linked(EdgesOf(LiveItems(g)), a.AsRef(), b.AsRef())
  }

  lemma {:induction false} ReachesSelf(g: Graph, m: Item)
    requires Shaped(g) && m in LiveItems(g)
    ensures Reaches(g, m, m)
  {
    EdgesOfLive(g, m);
    LinkedSelf(EdgesOf(LiveItems(g)), m.AsRef());
  }

  lemma {:induction false} LiveInRefs(g: Graph, m: Item)
    requires Shaped(g) && m in LiveItems(g)
    ensures m.AsRef() in RefsOf(LiveItems(g))
  {
    var i :| 0 <= i < |LiveItems(g)| && LiveItems(g)[i] == m;
    assert RefsOf(LiveItems(g))[i] == m.AsRef();
  }

  lemma {:induction false} ReachesFurther(g: Graph, a: Item, b: Item, c: Item)
    requires Shaped(g) && a in LiveItems(g) && b in LiveItems(g) && b.AsRef() in a.Mentions() && Reaches(g, b, c)
    ensures Reaches(g, a, c)
  {
    EdgesOfLive(g, a);
    LiveInRefs(g, b);
    LinkedFurther(EdgesOf(LiveItems(g)), a.AsRef(), b.AsRef(), c.AsRef());
  }

  /** Some mention is not completed; an accepted graph keeps it live. */
  lemma {:induction false} BlockedByLive(g: Graph, m: Item) returns (b: Item)
    requires Shaped(g) && TargetsOk(g, LiveItems(g)) && m in LiveItems(g) && !Unblocked(g, m)
    ensures b in LiveItems(g) && b.Status() != Completed && b.AsRef() in m.Mentions()
  {
    var live, refs := LiveItems(g), m.Mentions();
    var k :| 0 <= k < |refs| && !(Resolve(g, refs[k]).Some? && Resolve(g, refs[k]).value.Status() == Completed);
    var i :| 0 <= i < |live| && live[i] == m;
    assert MentionsOk(g, live[i].Mentions(), RefsOf(live));
    b := LiveOfRef(g, refs[k]);
    FindLive(g, b);
  }

  lemma {:induction false} ProgressFrom(g: Graph, order: seq<Ref>, m: Item) returns (b: Item)
    requires Shaped(g) && TargetsOk(g, LiveItems(g)) && Topological(EdgesOf(LiveItems(g)), order) && m in LiveItems(g) && m.Status() != Completed
    requires m.AsRef() in order
    ensures b in LiveItems(g) && b.Status() != Completed && Unblocked(g, b) && Reaches(g, m, b)
    decreases Position(order, m.AsRef())
  {
    if Unblocked(g, m) {
      b := m;
      ReachesSelf(g, m);
    } else {
      var next := BlockedByLive(g, m);
      EdgesOfLive(g, m);
      EdgesOfLive(g, next);
      var p := Position(order, m.AsRef());
      assert next.AsRef() in EdgesAt(g, order[p]);
      assert next.AsRef() in order[..p];
      var q :| 0 <= q < p && order[q] == next.AsRef();
      b := ProgressFrom(g, order, next);
      ReachesFurther(g, m, next, b);
    }
  }

  ghost function EdgesAt(g: Graph, ref: Ref): seq<Ref>
    requires Shaped(g) && ref in EdgesOf(LiveItems(g))
  {
    EdgesOf(LiveItems(g))[ref]
  }

  /** In a valid graph whose live dependencies stay reachable, every incomplete active item waits, through active dependencies, for an
      incomplete active item that waits for nothing; if that one is a pending executable Task with no
      Attempt and a valid Intent binding, it is ready. */
  lemma {:induction false} Progress(g: Graph, m: Item) returns (b: Item)
    requires Valid(g, true) && TargetsOk(g, LiveItems(g)) && m in LiveItems(g) && m.Status() != Completed
    ensures b in LiveItems(g) && b.Status() != Completed && Unblocked(g, b) && Reaches(g, m, b)
    ensures Valid(g, false) && IdleTask(b) ==> b.task in ReadyList(g)
  {
    var live := LiveItems(g);
    var order := AcceptedIsOrdered(EdgesOf(live), RefsOf(live), g.limits.maxDepth);
    EdgesOfLive(g, m);
    b := ProgressFrom(g, order, m);
    ReadyTasksAre(g);
  }

  /** A graph whose active incomplete items are all idle executable Tasks has something to run. */
  lemma {:induction false} IdleGraphHasReadyTask(g: Graph)
    requires Accepted(g)
    requires forall m :: m in LiveItems(g) && m.Status() != Completed ==> IdleTask(m)
    ensures ReadyList(g) == [] <==> forall m :: m in LiveItems(g) ==> m.Status() == Completed
  {
    ReadyTasksAre(g);
    TargetsMean(g);
    if m :| m in LiveItems(g) && m.Status() != Completed {
      var b := Progress(g, m);
    } else if ReadyList(g) != [] {
      assert ReadyList(g)[0] in ReadyList(g);
    }
  }
}
