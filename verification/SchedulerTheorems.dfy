/** A batch is bounded, free of conflicts and maximal, and does not depend on the order of the lists it was
    derived from. */
module SchedulerTheorems {
  import opened Core
  import opened Items
  import opened Order
  import opened Attempts
  import opened Paths
  import opened Resources
  import opened Scheduler
  import V = Validation
  import R = Ready

  // ---------------------------------------------------------------- one pass

  /** The list, in order, was dealt out to the two others, in order. */
  predicate Dealt(todo: seq<Task>, selected: seq<Task>, blocked: seq<Blocked>)
    decreases |todo|
  {
    if todo == [] then selected == [] && blocked == []
    else
      || (selected != [] && selected[0] == todo[0] && Dealt(todo[1..], selected[1..], blocked))
      || (blocked != [] && blocked[0].task == todo[0].AsRef() && Dealt(todo[1..], selected, blocked[1..]))
  }

  /** Each selected Task fitted beside those selected before it. */
  ghost predicate Admitted(c: Context, selected: seq<Task>, claimed: seq<seq<string>>) {
    |claimed| == |selected| && forall i :: 0 <= i < |selected| ==> AdmittedAt(c, selected, claimed, i)
  }

  ghost predicate AdmittedAt(c: Context, selected: seq<Task>, claimed: seq<seq<string>>, i: nat)
    requires |claimed| == |selected| && i < |selected|
  {
    Consider(c, selected[i], selected[..i], claimed[..i]) == Fits(claimed[i])
  }

  /** Each blocked Task was stopped beside some of those selected. */
  ghost predicate Stopped(c: Context, tasks: seq<Task>, so: Chosen) {
    forall i :: 0 <= i < |so.blocked| ==> StoppedTask(c, tasks, so.blocked[i], so.selected, so.claimed)
  }

  ghost predicate StoppedTask(c: Context, tasks: seq<Task>, b: Blocked, selected: seq<Task>, claimed: seq<seq<string>>) {
    exists t, k :: t in tasks && t.AsRef() == b.task && 0 <= k <= |selected| && k <= |claimed| && StoppedAt(c, t, b, selected, claimed, k)
  }

  ghost predicate StoppedAt(c: Context, t: Task, b: Blocked, selected: seq<Task>, claimed: seq<seq<string>>, k: nat)
    requires k <= |selected| && k <= |claimed|
  {
    Consider(c, t, selected[..k], claimed[..k]) == Stop(b.reason, b.holders)
  }

  lemma {:induction false} AdmittedSnoc(c: Context, selected: seq<Task>, claimed: seq<seq<string>>, t: Task, requested: seq<string>)
    requires Admitted(c, selected, claimed) && Consider(c, t, selected, claimed) == Fits(requested)
    ensures Admitted(c, selected + [t], claimed + [requested])
  {
    forall i | 0 <= i < |selected| + 1 ensures AdmittedAt(c, selected + [t], claimed + [requested], i) {
      if i < |selected| {
        assert AdmittedAt(c, selected, claimed, i);
        assert (selected + [t])[..i] == selected[..i] && (claimed + [requested])[..i] == claimed[..i];
      } else {
        assert (selected + [t])[..i] == selected && (claimed + [requested])[..i] == claimed;
      }
    }
  }

  lemma {:induction false} StoppedExtends(c: Context, tasks: seq<Task>, so: Chosen, t: Task, requested: seq<string>)
    requires Stopped(c, tasks, so)
    ensures Stopped(c, tasks, so.(selected := so.selected + [t], claimed := so.claimed + [requested]))
  {
    forall i | 0 <= i < |so.blocked| ensures StoppedTask(c, tasks, so.blocked[i], so.selected + [t], so.claimed + [requested]) {
      assert StoppedTask(c, tasks, so.blocked[i], so.selected, so.claimed);
      var u, k :| u in tasks && u.AsRef() == so.blocked[i].task && 0 <= k <= |so.selected| && k <= |so.claimed|
                  && StoppedAt(c, u, so.blocked[i], so.selected, so.claimed, k);
      assert (so.selected + [t])[..k] == so.selected[..k] && (so.claimed + [requested])[..k] == so.claimed[..k];
      assert StoppedAt(c, u, so.blocked[i], so.selected + [t], so.claimed + [requested], k);
    }
  }

  lemma {:induction false} StoppedSnoc(c: Context, tasks: seq<Task>, so: Chosen, t: Task, b: Blocked)
    requires Stopped(c, tasks, so) && t in tasks && b.task == t.AsRef() && |so.claimed| == |so.selected|
    requires Consider(c, t, so.selected, so.claimed) == Stop(b.reason, b.holders)
    ensures Stopped(c, tasks, so.(blocked := so.blocked + [b]))
  {
    forall i | 0 <= i < |so.blocked| + 1 ensures StoppedTask(c, tasks, (so.blocked + [b])[i], so.selected, so.claimed) {
      if i == |so.blocked| {
        assert so.selected[..|so.selected|] == so.selected && so.claimed[..|so.claimed|] == so.claimed;
        assert StoppedAt(c, t, b, so.selected, so.claimed, |so.selected|);
      }
    }
  }

  /** What holds of the lists at every iteration. */
  ghost predicate Fair(c: Context, tasks: seq<Task>, so: Chosen) {
    Admitted(c, so.selected, so.claimed) && Stopped(c, tasks, so)
  }

  lemma {:induction false} PassIsFair(c: Context, tasks: seq<Task>, todo: seq<Task>, so: Chosen, end: Chosen)
    requires Fair(c, tasks, so) && ScheduleFrom(c, todo, so) == Ok(end) && forall t :: t in todo ==> t in tasks
    ensures Fair(c, tasks, end)
    decreases |todo|
  {
    if todo != [] {
      assert todo[0] in todo;
      match Consider(c, todo[0], so.selected, so.claimed)
      case Stop(reason, holders) =>
        StoppedSnoc(c, tasks, so, todo[0], Blocked(todo[0].AsRef(), reason, holders));
        PassIsFair(c, tasks, todo[1..], so.(blocked := so.blocked + [Blocked(todo[0].AsRef(), reason, holders)]), end);
      case Fits(requested) =>
        AdmittedSnoc(c, so.selected, so.claimed, todo[0], requested);
        StoppedExtends(c, tasks, so, todo[0], requested);
        PassIsFair(c, tasks, todo[1..], so.(selected := so.selected + [todo[0]], claimed := so.claimed + [requested]), end);
    }
  }

  lemma {:induction false} PassDeals(c: Context, todo: seq<Task>, so: Chosen, end: Chosen)
    requires ScheduleFrom(c, todo, so) == Ok(end)
    ensures so.selected <= end.selected && so.blocked <= end.blocked
    ensures Dealt(todo, end.selected[|so.selected|..], end.blocked[|so.blocked|..])
    decreases |todo|
  {
    if todo != [] {
      match Consider(c, todo[0], so.selected, so.claimed)
      case Stop(reason, holders) =>
        PassDeals(c, todo[1..], so.(blocked := so.blocked + [Blocked(todo[0].AsRef(), reason, holders)]), end);
        assert end.blocked[|so.blocked|..][1..] == end.blocked[|so.blocked| + 1..];
      case Fits(requested) =>
        PassDeals(c, todo[1..], so.(selected := so.selected + [todo[0]], claimed := so.claimed + [requested]), end);
        assert end.selected[|so.selected|..][1..] == end.selected[|so.selected| + 1..];
    }
  }

  // ---------------------------------------------------------------- limits

  lemma {:induction false} CountGrows(selected: seq<Task>, k: nat, template: string)
    requires k <= |selected|
    ensures SelectedOf(selected[..k], template) <= SelectedOf(selected, template)
  {
    assert selected == selected[..k] + selected[k..];
    CountConcat(selected[..k], selected[k..], RunsOn(template));
  }

  /** No limit is exceeded by what was selected. */
  ghost predicate WithinLimits(c: Context, selected: seq<Task>) {
    && (selected != [] ==> Occupied(c.attempts) + |selected| <= c.limit)
    && (forall template :: template in c.perTemplate && SelectedOf(selected, template) > 0 ==>
          HoldingOf(c.attempts, template) + SelectedOf(selected, template) <= c.perTemplate[template])
  }

  lemma {:induction false} AdmittedIsWithin(c: Context, selected: seq<Task>, claimed: seq<seq<string>>, n: nat)
    requires Admitted(c, selected, claimed) && n <= |selected|
    ensures WithinLimits(c, selected[..n])
    decreases n
  {
    if n > 0 {
      AdmittedIsWithin(c, selected, claimed, n - 1);
      assert AdmittedAt(c, selected, claimed, n - 1);
      var before, t := selected[..n - 1], selected[n - 1];
      assert selected[..n] == before + [t];
      forall template | template in c.perTemplate && SelectedOf(selected[..n], template) > 0
        ensures HoldingOf(c.attempts, template) + SelectedOf(selected[..n], template) <= c.perTemplate[template]
      {
        SelectedSnoc(before, t, template);
      }
    }
  }

  // ---------------------------------------------------------------- maximality

  /** What stops a Task beside some selected ones stops it beside more. */
  lemma {:induction false} StopStays(c: Context, t: Task, selected: seq<Task>, claimed: seq<seq<string>>, k: nat)
    requires k <= |selected| && |claimed| == |selected| && Consider(c, t, selected[..k], claimed[..k]).Stop?
    ensures Consider(c, t, selected, claimed).Stop?
  {
    CountGrows(selected, k, TemplateOf(t));
    if ConsiderPaths(c, PathsOf(c, t), claimed[..k]).Stop? { PathStopStays(c, PathsOf(c, t), claimed, k); }
  }

  lemma {:induction false} PathStopStays(c: Context, paths: seq<string>, claimed: seq<seq<string>>, k: nat)
    requires k <= |claimed| && ConsiderPaths(c, paths, claimed[..k]).Stop?
    ensures ConsiderPaths(c, paths, claimed).Stop?
  {
  }

  /** The batch of a pass over the ready Tasks: dealt out in order, within every limit, each selected Task
      fitting beside the earlier ones, and no blocked Task able to join. */
  lemma {:induction false} BatchIsRight(c: Context, tasks: seq<Task>, end: Chosen)
    requires ScheduleFrom(c, tasks, Chosen([], [], [])) == Ok(end)
    ensures Dealt(tasks, end.selected, end.blocked)
    ensures Fair(c, tasks, end) && WithinLimits(c, end.selected)
    ensures forall b :: b in end.blocked ==> exists t :: t in tasks && t.AsRef() == b.task && Consider(c, t, end.selected, end.claimed).Stop?
  {
    PassDeals(c, tasks, Chosen([], [], []), end);
    assert end.selected[0..] == end.selected && end.blocked[0..] == end.blocked;
    PassIsFair(c, tasks, tasks, Chosen([], [], []), end);
    AdmittedIsWithin(c, end.selected, end.claimed, |end.selected|);
    assert end.selected[..|end.selected|] == end.selected;
    forall b | b in end.blocked
      ensures exists t :: t in tasks && t.AsRef() == b.task && Consider(c, t, end.selected, end.claimed).Stop?
    {
      var i :| 0 <= i < |end.blocked| && end.blocked[i] == b;
      assert StoppedTask(c, tasks, end.blocked[i], end.selected, end.claimed);
      var t, k :| t in tasks && t.AsRef() == b.task && 0 <= k <= |end.selected| && k <= |end.claimed| && StoppedAt(c, t, b, end.selected, end.claimed, k);
      StopStays(c, t, end.selected, end.claimed, k);
    }
  }

  lemma {:induction false} FitsMeans(c: Context, t: Task, selected: seq<Task>, claimed: seq<seq<string>>, requested: seq<string>)
    requires Consider(c, t, selected, claimed) == Fits(requested)
    ensures CanonicalPaths(PathsOf(c, t)) == Ok(requested) && ExclusiveConflicts(requested, c.attempts) == Ok([])
    ensures !ClaimConflict(requested, claimed)
  {
  }

  lemma {:induction false} SelectedFits(c: Context, tasks: seq<Task>, end: Chosen, j: nat)
    requires ScheduleFrom(c, tasks, Chosen([], [], [])) == Ok(end) && j < |end.selected|
    ensures |end.claimed| == |end.selected|
    ensures Consider(c, end.selected[j], end.selected[..j], end.claimed[..j]) == Fits(end.claimed[j])
  {
    PassIsFair(c, tasks, tasks, Chosen([], [], []), end);
    assert AdmittedAt(c, end.selected, end.claimed, j);
  }

  /** No selected Task claims a path that is reported as held. */
  lemma {:induction false} ClaimsAreFree(c: Context, tasks: seq<Task>, end: Chosen, j: nat)
    requires ScheduleFrom(c, tasks, Chosen([], [], [])) == Ok(end) && j < |end.selected|
    ensures |end.claimed| == |end.selected|
    ensures CanonicalPaths(PathsOf(c, end.selected[j])) == Ok(end.claimed[j])
    ensures ExclusiveConflicts(end.claimed[j], c.attempts) == Ok([])
  {
    SelectedFits(c, tasks, end, j);
    FitsMeans(c, end.selected[j], end.selected[..j], end.claimed[..j], end.claimed[j]);
  }

  /** The comparison of path sets finds no conflict between what two selected Tasks claim. */
  lemma {:induction false} BatchIsExclusive(c: Context, tasks: seq<Task>, end: Chosen, i: nat, j: nat)
    requires ScheduleFrom(c, tasks, Chosen([], [], [])) == Ok(end) && i < j < |end.selected|
    ensures |end.claimed| == |end.selected| && SetsConflict(end.claimed[j], end.claimed[i]) != Ok(true)
  {
    SelectedFits(c, tasks, end, j);
    FitsMeans(c, end.selected[j], end.selected[..j], end.claimed[..j], end.claimed[j]);
    assert end.claimed[..j][i] == end.claimed[i];
  }

  // ---------------------------------------------------------------- order independence

  lemma {:induction false} SameHolders(requested: seq<string>, a: seq<Attempt>, b: seq<Attempt>)
    requires multiset(a) == multiset(b)
    ensures ExclusiveConflicts(requested, a).Ok? <==> ExclusiveConflicts(requested, b).Ok?
    ensures ExclusiveConflicts(requested, a).Ok? ==>
      forall id :: HasHolder(ExclusiveConflicts(requested, a).value, id) <==> HasHolder(ExclusiveConflicts(requested, b).value, id)
  {
    SameElements(a, b);
    if CanonicalPaths(requested).Ok? {
      ExclusiveConflictsMeans(requested, a, "");
      ExclusiveConflictsMeans(requested, b, "");
      assert KeysOk(a) <==> KeysOk(b);
      if KeysOk(a) {
        forall id ensures HasHolder(ExclusiveConflicts(requested, a).value, id) <==> HasHolder(ExclusiveConflicts(requested, b).value, id) {
          ExclusiveConflictsMeans(requested, a, id);
          ExclusiveConflictsMeans(requested, b, id);
        }
      }
    }
  }

  lemma {:induction false} SameElements(a: seq<Attempt>, b: seq<Attempt>)
    requires multiset(a) == multiset(b)
    ensures forall x :: x in a <==> x in b
  {
    forall x ensures x in a <==> x in b { assert x in multiset(a) <==> x in multiset(b); }
  }

  lemma {:induction false} HoldersListed(conflicts: seq<Conflict>)
    ensures forall id :: id in Holders(conflicts) <==> HasHolder(conflicts, id)
    ensures conflicts != [] <==> exists id :: HasHolder(conflicts, id)
  {
    forall id ensures id in Holders(conflicts) <==> HasHolder(conflicts, id) {
      if c :| c in conflicts && c.holder == id {
        var i :| 0 <= i < |conflicts| && conflicts[i] == c;
        assert Holders(conflicts)[i] == id;
      }
    }
    if conflicts != [] { assert conflicts[0] in conflicts; assert HasHolder(conflicts, conflicts[0].holder); }
  }

  lemma {:induction false} SameHolderIds(a: seq<Conflict>, b: seq<Conflict>)
    requires forall id :: HasHolder(a, id) <==> HasHolder(b, id)
    ensures HolderIds(a) == HolderIds(b) && (a != [] <==> b != [])
  {
    HoldersListed(a);
    HoldersListed(b);
    var x, y := Distinct(Holders(a)), Distinct(Holders(b));
    DistinctMultiset(x);
    DistinctMultiset(y);
    forall id ensures multiset(x)[id] == multiset(y)[id] {}
    assert multiset(x) == multiset(y);
    StringOrder();
    StringsApart(x);
    SortForgetsOrder(x, y, LessEq);
    assert (exists id :: HasHolder(a, id)) <==> (exists id :: HasHolder(b, id));
  }

  lemma {:induction false} ConsiderForgetsOrder(c: Context, d: Context, t: Task, selected: seq<Task>, claimed: seq<seq<string>>)
    requires multiset(c.attempts) == multiset(d.attempts) && d == c.(attempts := d.attempts)
    ensures Consider(c, t, selected, claimed) == Consider(d, t, selected, claimed)
  {
    CountForgetsOrder(c.attempts, d.attempts, Holds);
    CountForgetsOrder(c.attempts, d.attempts, HoldsFor(TemplateOf(t)));
    if CanonicalPaths(PathsOf(c, t)).Ok? {
      var requested := CanonicalPaths(PathsOf(c, t)).value;
      SameHolders(requested, c.attempts, d.attempts);
      if ExclusiveConflicts(requested, c.attempts).Ok? {
        SameHolderIds(ExclusiveConflicts(requested, c.attempts).value, ExclusiveConflicts(requested, d.attempts).value);
      }
    }
  }

  /** The batch does not depend on the order of the Attempts. */
  lemma {:induction false} AttemptOrderIrrelevant(c: Context, d: Context, todo: seq<Task>, so: Chosen)
    requires multiset(c.attempts) == multiset(d.attempts) && d == c.(attempts := d.attempts)
    ensures ScheduleFrom(c, todo, so) == ScheduleFrom(d, todo, so)
    decreases |todo|
  {
    if todo != [] {
      ConsiderForgetsOrder(c, d, todo[0], so.selected, so.claimed);
      match Consider(c, todo[0], so.selected, so.claimed)
      case BadPath =>
      case Stop(reason, holders) =>
        AttemptOrderIrrelevant(c, d, todo[1..], so.(blocked := so.blocked + [Blocked(todo[0].AsRef(), reason, holders)]));
      case Fits(requested) =>
        AttemptOrderIrrelevant(c, d, todo[1..], so.(selected := so.selected + [todo[0]], claimed := so.claimed + [requested]));
    }
  }

  lemma {:induction false} TakeOrder()
    ensures Preorder(TakeBefore)
  {
    forall x: Task, y: Task ensures Comparable(TakeBefore, x, y) { LessEqTotal(x.id, y.id); }
    forall x: Task, y: Task, z: Task ensures Transits(TakeBefore, x, y, z) { TakeTransits(x, y, z); }
  }

  lemma {:induction false} TakeTransits(x: Task, y: Task, z: Task)
    ensures TakeBefore(x, y) && TakeBefore(y, z) ==> TakeBefore(x, z)
  {
    if LessEq(x.id, y.id) && LessEq(y.id, z.id) {
      LessEqTransitive(x.id, y.id, z.id);
      LessEqTotal(x.id, y.id);
      if x.id == z.id { LessEqTotal(y.id, z.id); }
    }
  }

  ghost predicate Listed(g: Graph, tasks: seq<Task>) {
    forall t :: t in tasks ==> t in g.tasks
  }

  lemma {:induction false} TakeSeparates(g: Graph, tasks: seq<Task>)
    requires UniqueRefs(TaskItems(g.tasks)) && Listed(g, tasks)
    ensures Separates(tasks, TakeBefore)
  {
    forall x, y | x in tasks && y in tasks ensures Apart(TakeBefore, x, y) {
      if TakeBefore(x, y) && TakeBefore(y, x) {
        LessEqTotal(x.id, y.id);
        var i :| 0 <= i < |g.tasks| && g.tasks[i] == x;
        var j :| 0 <= j < |g.tasks| && g.tasks[j] == y;
        assert TaskItems(g.tasks)[i].AsRef() == TaskItems(g.tasks)[j].AsRef();
      }
    }
  }

  lemma {:induction false} ReadyListed(g: Graph)
    requires V.Valid(g, false)
    ensures R.Once(R.ReadyList(g)) && Listed(g, R.ReadyList(g))
  {
    R.ReadyListOnce(g);
    R.ReadyTasksAre(g);
    forall t | t in R.ReadyList(g) ensures t in g.tasks { assert TaskItem(t) in V.LiveItems(g); }
  }

  lemma {:induction false} OnceSameElements(a: seq<Task>, b: seq<Task>)
    requires R.Once(a) && R.Once(b) && forall t :: t in a <==> t in b
    ensures multiset(a) == multiset(b)
  {
    forall t ensures multiset(a)[t] == multiset(b)[t] {
      assert t in multiset(a) <==> t in a;
      assert t in multiset(b) <==> t in b;
    }
  }

  /** `g'` lists the same active references in another order. */
  ghost predicate Reordered(g: Graph, g': Graph) {
    && g' == g.(activeTasks := g'.activeTasks, activeGroups := g'.activeGroups)
    && forall r :: r in g.activeTasks <==> r in g'.activeTasks
  }

  lemma {:induction false} SameLiveTasks(g: Graph, g': Graph, t: Task)
    requires Reordered(g, g') && V.Shaped(g) && V.Shaped(g') && TaskItem(t) in V.LiveItems(g)
    ensures TaskItem(t) in V.LiveItems(g')
  {
    var items := TaskItems(g.tasks);
    R.TasksLiveAmongTasks(g, t);
    var live, live' := V.Named(items, g.activeTasks), V.Named(items, g'.activeTasks);
    var i :| 0 <= i < |live| && live[i] == TaskItem(t);
    assert RefsOf(live)[i] == t.AsRef() && g.activeTasks[i] in g.activeTasks;
    var j :| 0 <= j < |g'.activeTasks| && g'.activeTasks[j] == t.AsRef();
    LookupUnique(items, TaskItem(t));
    assert live'[j] == TaskItem(t);
    R.TasksLiveAmongTasks(g', t);
  }

  lemma {:induction false} SameReadiness(g: Graph, g': Graph, t: Task)
    requires Reordered(g, g')
    ensures R.IsReady(g, t) <==> R.IsReady(g', t)
  {
  }

  /** The order in which a valid graph lists its active items does not matter to the batch. Whether the graph
      is valid can depend on that order: see `Acyclic.ListOrderMatters`. */
  lemma {:induction false} ActiveOrderIrrelevant(g: Graph, g': Graph, attempts: seq<Attempt>, p: Policy, resources: map<Ref, seq<string>>)
    requires Reordered(g, g') && V.Valid(g, false) && V.Valid(g', false)
    ensures Schedule(g, attempts, p, resources) == Schedule(g', attempts, p, resources)
  {
    R.ReadyTasksAre(g);
    R.ReadyTasksAre(g');
    forall t ensures t in R.ReadyList(g) <==> t in R.ReadyList(g') { SameReady(g, g', t); }
    ReadyListed(g);
    ReadyListed(g');
    OnceSameElements(R.ReadyList(g), R.ReadyList(g'));
    TakeOrder();
    TakeSeparates(g, R.ReadyList(g));
    SortForgetsOrder(R.ReadyList(g), R.ReadyList(g'), TakeBefore);
  }

  lemma {:induction false} SameReady(g: Graph, g': Graph, t: Task)
    requires Reordered(g, g') && V.Valid(g, false) && V.Valid(g', false)
    ensures t in R.ReadyList(g) <==> t in R.ReadyList(g')
  {
    R.ReadyTasksAre(g);
    R.ReadyTasksAre(g');
    SameReadiness(g, g', t);
    if TaskItem(t) in V.LiveItems(g) { SameLiveTasks(g, g', t); }
    if TaskItem(t) in V.LiveItems(g') { SameLiveTasks(g', g, t); }
  }
}
