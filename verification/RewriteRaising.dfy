/** When the worklist cannot raise, and the exact termination condition that follows. */
module RewriteRaising {
  import opened Core
  import opened Items
  import opened Rewrite
  import opened RewritePass
  import opened RewriteRound
  import opened RewriteLog
  import opened RewriteRun
  import opened RewriteTheorems
  import opened RewriteTermination

  /** The live revision of a logical id is its newest one. */
  ghost predicate LiveIsNewest(w: Work)
    requires WorkOk(w)
  {
    forall i, ref :: 0 <= i < |Live(w)| && Known(w, ref) && ref.Logical() == Live(w)[i].AsRef().Logical() ==>
      ref.revision <= Live(w)[i].AsRef().revision
  }

  /** A Task becomes a Group only where no pending Group has it as a child. */
  ghost predicate KindSafe(w: Work, e: Entry)
    requires WorkOk(w)
  {
    e.source.kind == e.target.kind || forall g :: GroupItem(g) in Live(w) && g.status == Pending ==> !ChildHit(g, e)
  }

  ghost predicate Clean(w: Work) {
    && WorkOk(w) && LiveIsNewest(w)
    && (w.queue != [] ==> KindSafe(w, w.queue[0]))
    && forall k :: 1 <= k < |w.queue| ==> w.queue[k].source.kind == w.queue[k].target.kind
  }

  lemma {:induction false} TaskPassCompletes(todo: seq<Task>, live: set<Ref>, w: Work, e: Entry)
    requires UniqueRefs(TaskItems(todo))
    requires forall t :: t in todo && t.AsRef() in live ==> !HasTask(w.tasks, RevisedTask(t, e).AsRef())
    ensures TaskPass(todo, live, w, e).Ok?
    ensures var w' := TaskPass(todo, live, w, e).value; w'.groups == w.groups && w'.activeGroups == w.activeGroups
    decreases |todo|
  {
    if todo != [] {
      var t := todo[0];
      var w1 := VisitTask(t, live, w, e).value;
      forall s | s in todo[1..] && s.AsRef() in live
        ensures !HasTask(w1.tasks, RevisedTask(s, e).AsRef())
      {
        var k :| 0 <= k < |todo| - 1 && todo[1..][k] == s;
        assert TaskItems(todo)[0].AsRef() != TaskItems(todo)[k + 1].AsRef();
      }
      forall i, j | 0 <= i < j < |todo[1..]|
        ensures TaskItems(todo[1..])[i].AsRef() != TaskItems(todo[1..])[j].AsRef()
      {
        assert TaskItems(todo)[i + 1].AsRef() != TaskItems(todo)[j + 1].AsRef();
      }
      TaskPassCompletes(todo[1..], live, w1, e);
    }
  }

  lemma {:induction false} GroupPassCompletes(todo: seq<Group>, live: set<Ref>, w: Work, e: Entry)
    requires UniqueRefs(GroupItems(todo))
    requires forall g :: g in todo && g.AsRef() in live ==> !HasGroup(w.groups, RevisedGroup(g, e).AsRef())
    requires e.source.kind == e.target.kind || forall g :: g in todo && GroupHit(g, live, e) ==> !ChildHit(g, e)
    ensures GroupPass(todo, live, w, e).Ok?
    decreases |todo|
  {
    if todo != [] {
      var g := todo[0];
      var w1 := VisitGroup(g, live, w, e).value;
      forall s | s in todo[1..] && s.AsRef() in live
        ensures !HasGroup(w1.groups, RevisedGroup(s, e).AsRef())
      {
        var k :| 0 <= k < |todo| - 1 && todo[1..][k] == s;
        assert GroupItems(todo)[0].AsRef() != GroupItems(todo)[k + 1].AsRef();
      }
      forall i, j | 0 <= i < j < |todo[1..]|
        ensures GroupItems(todo[1..])[i].AsRef() != GroupItems(todo[1..])[j].AsRef()
      {
        assert GroupItems(todo)[i + 1].AsRef() != GroupItems(todo)[j + 1].AsRef();
      }
      GroupPassCompletes(todo[1..], live, w1, e);
    }
  }

  lemma {:induction false} LiveTask(w: Work, t: Task)
    requires WorkOk(w) && t in w.tasks && t.AsRef() in w.activeTasks
    ensures TaskItem(t) in Live(w)
  {
    var i :| 0 <= i < |w.activeTasks| && w.activeTasks[i] == t.AsRef();
    var k :| 0 <= k < |w.tasks| && w.tasks[k] == t;
    assert TaskItems(w.tasks)[k] == TaskItem(t);
    LookupUnique(TaskItems(w.tasks), TaskItem(t));
    assert Live(w)[i] == At(TaskLane(w), i);
  }

  lemma {:induction false} LiveGroup(w: Work, g: Group)
    requires WorkOk(w) && g in w.groups && g.AsRef() in w.activeGroups
    ensures GroupItem(g) in Live(w)
  {
    var i :| 0 <= i < |w.activeGroups| && w.activeGroups[i] == g.AsRef();
    var k :| 0 <= k < |w.groups| && w.groups[k] == g;
    assert GroupItems(w.groups)[k] == GroupItem(g);
    LookupUnique(GroupItems(w.groups), GroupItem(g));
    assert Live(w)[|w.activeTasks| + i] == At(GroupLane(w), i);
  }

  lemma {:induction false} NextRevisionUnused(w: Work, m: Item, e: Entry)
    requires WorkOk(w) && LiveIsNewest(w) && m in Live(w)
    ensures !Known(w, Revised(m, e).AsRef())
  {
  }

  lemma {:induction false} CleanRoundCompletes(w: Work)
    requires Clean(w) && w.queue != []
    ensures Round(w).Ok?
  {
    var e := w.queue[0];
    var w1 := w.(queue := w.queue[1..]);
    forall t | t in w.tasks && t.AsRef() in Elements(w.activeTasks)
      ensures !HasTask(w.tasks, RevisedTask(t, e).AsRef())
    {
      LiveTask(w, t);
      NextRevisionUnused(w, TaskItem(t), e);
      HasTaskIsHasRef(w.tasks, RevisedTask(t, e).AsRef());
    }
    TaskPassCompletes(w1.tasks, Elements(w1.activeTasks), w1, e);
    var w2 := TaskPass(w1.tasks, Elements(w1.activeTasks), w1, e).value;
    forall g | g in w.groups && g.AsRef() in Elements(w.activeGroups)
      ensures !HasGroup(w.groups, RevisedGroup(g, e).AsRef()) && GroupItem(g) in Live(w)
    {
      LiveGroup(w, g);
      NextRevisionUnused(w, GroupItem(g), e);
      HasGroupIsHasRef(w.groups, RevisedGroup(g, e).AsRef());
    }
    GroupPassCompletes(w2.groups, Elements(w2.activeGroups), w2, e);
  }

  lemma {:induction false} CleanContinues(w: Work, w': Work)
    requires Clean(w) && Follows(w, w')
    ensures Clean(w')
  {
    var news := RoundEffect(w, w');
    assert LiveIsNewest(w') by { NewestContinues(w, w', news); }
    forall k | 0 <= k < |w'.queue|
      ensures w'.queue[k].source.kind == w'.queue[k].target.kind
    {
      if k >= |w.queue| - 1 {
        var n := w'.queue[k];
        assert n == news[k - (|w.queue| - 1)] && n in news;
        assert n.source.Logical() == n.target.Logical();
      }
    }
  }

  lemma {:induction false} NewestContinues(w: Work, w': Work, news: seq<Entry>)
    requires WorkOk(w) && WorkOk(w') && LiveIsNewest(w) && w.queue != []
    requires RoundMoves(w, w.queue[0], w') && RoundQueues(w, w.queue[0], w', news)
    ensures LiveIsNewest(w')
  {
    forall i, ref | 0 <= i < |Live(w')| && Known(w', ref) && ref.Logical() == Live(w')[i].AsRef().Logical()
      ensures ref.revision <= Live(w')[i].AsRef().revision
    {
      if !Known(w, ref) {
        var n :| n in news && n.target == ref;
        var k := Hit(w, w.queue[0], w', news, n);
        LiveRefs(w);
        SameNewest(w, i, k);
      }
    }
  }

  /** Two live items with one logical id are the same item: each is the newest revision. */
  lemma {:induction false} SameNewest(w: Work, i: nat, k: nat)
    requires WorkOk(w) && LiveIsNewest(w) && i < |Live(w)| && k < |Live(w)|
    requires Live(w)[i].AsRef().Logical() == Live(w)[k].AsRef().Logical()
    ensures Live(w)[i] == Live(w)[k]
  {
  }

  lemma {:induction false} CleanNeverRaises(w0: Work, rounds: nat)
    requires Clean(w0)
    ensures !RunRounds(w0, rounds).Raised?
  {
    forall a | Clean(a) && a.queue != [] ensures Round(a).Ok? { CleanRoundCompletes(a); }
    forall a, b | Clean(a) && Follows(a, b) ensures Clean(b) { CleanContinues(a, b); }
    RunNeverRaises(w => Clean(w), w0, rounds);
  }

  /** The exact condition. On lists where the live revisions are the newest ones, the worklist leaves if and
      only if no chain of pending dependents revisits an item, and then it leaves without raising. */
  lemma {:induction false} TerminatesIffNoRevisit(w0: Work)
    requires StartOk(w0) && Clean(w0)
    ensures Terminates(w0) <==> NoWalkRevisits(w0)
    ensures Terminates(w0) ==> FinalOutcome(w0).Done?
  {
    if NoWalkRevisits(w0) { NoRevisitTerminates(w0); }
    if Terminates(w0) {
      var rounds: nat :| RunRounds(w0, rounds) != Unfinished;
      OutcomeIsAnyFinishedRun(w0, rounds);
      CleanNeverRaises(w0, rounds);
      FinishedMeansNoRevisit(w0, rounds);
    }
  }

  /** `rank` orders the live items so that every pending one comes after the live items it mentions, a mention
      of the superseded revision counting as one of its successor. */
  ghost predicate Ranks(w0: Work, rank: nat -> nat)
    requires StartOk(w0)
  {
    forall i: nat, j: nat :: j < |Live(w0)| && DependsOn(w0, i, Live(w0)[j].AsRef()) ==> rank(j) < rank(i)
  }

  /** Live dependencies without cycles, those of the replacement included, are enough for the worklist to
      leave. */
  lemma {:induction false} AcyclicDependenciesTerminate(w0: Work, rank: nat -> nat)
    requires StartOk(w0) && Clean(w0) && Ranks(w0, rank)
    ensures Terminates(w0) && FinalOutcome(w0).Done?
  {
    forall path | IsWalk(w0, path) ensures NoRepeat(path) {
      forall a, b | 0 <= a < b < |path| ensures path[a] != path[b] { WalkClimbs(w0, rank, path, a, b); }
    }
    TerminatesIffNoRevisit(w0);
  }

  lemma {:induction false} WalkClimbs(w0: Work, rank: nat -> nat, path: seq<nat>, a: nat, b: nat)
    requires StartOk(w0) && Ranks(w0, rank) && IsWalk(w0, path) && a < b < |path|
    ensures rank(path[a]) < rank(path[b])
    decreases b
  {
    assert DependsOn(w0, path[b], Live(w0)[path[b - 1]].AsRef());
    if a < b - 1 { WalkClimbs(w0, rank, path, a, b - 1); }
  }

  /** The failing family in the source: a replacement that depends on the revision it replaces sends the
      loop round for ever, since each new revision again mentions the one before it. */
  lemma {:induction false} SelfDependencyDiverges(w0: Work, i: nat)
    requires StartOk(w0) && Clean(w0) && i < |Live(w0)|
    requires Live(w0)[i].AsRef() == w0.queue[0].target && Live(w0)[i].Status() == Pending
    requires w0.queue[0].source in Live(w0)[i].Mentions()
    ensures !Terminates(w0)
    ensures forall rounds: nat :: RunRounds(w0, rounds) == Unfinished
  {
    var mentions := Live(w0)[i].Mentions();
    var k :| 0 <= k < |mentions| && mentions[k] == w0.queue[0].source;
    assert ReplaceRef(mentions, w0.queue[0])[k] == w0.queue[0].target;
    assert DependsOn(w0, i, Live(w0)[i].AsRef());
    assert IsWalk(w0, [i, i]);
    assert [i, i][0] == [i, i][1];
    TerminatesIffNoRevisit(w0);
  }
}
