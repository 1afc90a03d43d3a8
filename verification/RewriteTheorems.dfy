/** What the worklist achieves when it finishes, and exactly when it finishes. */
module RewriteTheorems {
  import opened Core
  import opened Items
  import opened Rewrite
  import opened RewritePass
  import opened RewriteRound
  import opened RewriteLog
  import opened RewriteRun

  // ---------------------------------------------------------------- correctness of a finished run

  ghost predicate Reached(w0: Work, w: Work) {
    exists tr :: RunSoFar(w0, w, tr)
  }

  lemma {:induction false} RoundReaches(w0: Work, w: Work, w': Work)
    requires Reached(w0, w) && Follows(w, w')
    ensures Reached(w0, w')
  {
    var tr :| RunSoFar(w0, w, tr);
    var tr' := RunContinues(w0, w, tr, w');
  }

  /** A finished run has popped every entry it queued. */
  lemma {:induction false} RunFinishes(w0: Work, rounds: nat, end: Work) returns (tr: Trace)
    requires StartOk(w0) && RunRounds(w0, rounds) == Done(end)
    ensures RunSoFar(w0, end, tr) && tr.popped == |tr.log|
  {
    RunStarts(w0);
    forall a, b | Reached(w0, a) && Follows(a, b) ensures Reached(w0, b) { RoundReaches(w0, a, b); }
    RunKeeps(w => Reached(w0, w), w0, rounds, end);
    tr :| RunSoFar(w0, end, tr);
    assert |end.queue| == |tr.log| - tr.popped;
  }

  /** Items that are not pending are untouched; a pending item keeps everything but its revision and the
      revisions of what it mentions (and mentions of the superseded item now name its successor). */
  ghost predicate OnlyRevisionsMoved(w0: Work, w: Work)
    requires StartOk(w0) && WorkOk(w)
  {
    |Live(w)| == |Live(w0)| && forall i :: 0 <= i < |Live(w0)| ==> RevisionsMoved(w0, Live(w0)[i], Live(w)[i])
  }

  ghost predicate RevisionsMoved(w0: Work, m0: Item, m: Item)
    requires StartOk(w0)
  {
    && (m0.Status() != Pending ==> m == m0)
    && (m0.Status() == Pending ==>
          && m.AsRef().Logical() == m0.AsRef().Logical()
          && |m.Mentions()| == |m0.Mentions()|
          && (forall k :: 0 <= k < |m.Mentions()| ==>
                m.Mentions()[k].Logical() == Substitute(w0.queue[0], m0.Mentions()[k]).Logical())
          && Forgetful(m) == Forgetful(m0))
  }

  /** An item with its revision and its mentions erased. */
  ghost function Forgetful(m: Item): Item {
    match m
    case TaskItem(t) => TaskItem(t.(revision := 0, dependsOn := []))
    case GroupItem(g) =>
      GroupItem(g.(revision := 0, dependsOn := [],
                   children := seq(|g.children|, i requires 0 <= i < |g.children| => g.children[i].(task := Ref(TaskKind, "", 0)))))
  }

  /** The live graph keeps its shape: a pending item's `k`-th mention names live item `j` afterwards exactly
      if it named it before, a mention of the superseded revision counting as one of its successor. */
  ghost predicate SameShape(w0: Work, w: Work)
    requires StartOk(w0) && WorkOk(w) && |Live(w)| == |Live(w0)|
  {
    forall i, k, j :: 0 <= i < |Live(w0)| && Live(w0)[i].Status() == Pending && 0 <= j < |Live(w0)|
                      && 0 <= k < |Live(w0)[i].Mentions()| && k < |Live(w)[i].Mentions()| ==>
      (Live(w)[i].Mentions()[k] == Live(w)[j].AsRef() <==> Substitute(w0.queue[0], Live(w0)[i].Mentions()[k]) == Live(w0)[j].AsRef())
  }

  ghost predicate IsLive(w: Work, ref: Ref) {
    ref in w.activeTasks + w.activeGroups
  }

  /** The run took `ref` out of use: it is the revision that the run set out to replace, or it was active when
      the run started, or listed by the run itself, and is not active any more. */
  ghost predicate Superseded(w0: Work, w: Work, ref: Ref)
    requires StartOk(w0)
  {
    ref == w0.queue[0].source || (Known(w, ref) && !IsLive(w, ref) && (IsLive(w0, ref) || !Known(w0, ref)))
  }

  /** No pending live item mentions anything that the run took out of use, whether it was in use when the run
      started or only for a while. */
  ghost predicate NothingStale(w0: Work, w: Work)
    requires StartOk(w0) && WorkOk(w)
  {
    forall i, ref :: 0 <= i < |Live(w)| && Live(w)[i].Status() == Pending && ref in Live(w)[i].Mentions() ==> !Superseded(w0, w, ref)
  }

  /** A mention of anything else stays exactly what it was. */
  ghost predicate OthersStay(w0: Work, w: Work)
    requires StartOk(w0) && WorkOk(w) && |Live(w)| == |Live(w0)|
  {
    forall i, k :: 0 <= i < |Live(w0)| && 0 <= k < |Live(w0)[i].Mentions()| ==> MentionStays(w0, w, i, k)
  }

  ghost predicate MentionStays(w0: Work, w: Work, i: nat, k: nat)
    requires StartOk(w0) && WorkOk(w) && |Live(w)| == |Live(w0)| && i < |Live(w0)| && k < |Live(w0)[i].Mentions()|
  {
    !Superseded(w0, w, Live(w0)[i].Mentions()[k]) ==>
      k < |Live(w)[i].Mentions()| && Live(w)[i].Mentions()[k] == Live(w0)[i].Mentions()[k]
  }

  /** Main result on finished runs. */
  lemma {:induction false} FinishedRunIsFaithful(w0: Work, rounds: nat, w: Work)
    requires StartOk(w0) && RunRounds(w0, rounds) == Done(w)
    ensures WorkOk(w) && w0.tasks <= w.tasks && w0.groups <= w.groups
    ensures OnlyRevisionsMoved(w0, w) && SameShape(w0, w) && NothingStale(w0, w) && OthersStay(w0, w)
  {
    var tr := RunFinishes(w0, rounds, w);
    assert tr.log[..tr.popped] == tr.log;
    assert OnlyRevisionsMoved(w0, w) by {
      forall i | 0 <= i < |Live(w0)| ensures RevisionsMoved(w0, Live(w0)[i], Live(w)[i]) { MovedItem(w0, w, tr, i); }
    }
    assert SameShape(w0, w) by { ShapeKept(w0, w, tr); }
    assert NothingStale(w0, w) by { StaleGone(w0, w, tr); }
    assert OthersStay(w0, w) by {
      forall i, k | 0 <= i < |Live(w0)| && 0 <= k < |Live(w0)[i].Mentions()| ensures MentionStays(w0, w, i, k) { OtherStays(w0, w, tr, i, k); }
    }
  }

  lemma {:induction false} MovedItem(w0: Work, w: Work, tr: Trace, i: nat)
    requires RunSoFar(w0, w, tr) && tr.popped == |tr.log| && i < |Live(w0)|
    ensures RevisionsMoved(w0, Live(w0)[i], Live(w)[i])
  {
    var m0, m, log := Live(w0)[i], Live(w)[i], tr.log;
    assert log[..tr.popped] == log;
    if m0.Status() == Pending {
      ReboundMentions(m0, m.AsRef().revision, log);
      ForgetRebound(m0, m.AsRef().revision, log);
      forall k | 0 <= k < |m.Mentions()|
        ensures m.Mentions()[k].Logical() == Substitute(w0.queue[0], m0.Mentions()[k]).Logical()
      {
        ChaseFirst(log, |log|, m0.Mentions()[k]);
        assert log[..|log|] == log;
        ChaseLogical(log[1..], Substitute(log[0], m0.Mentions()[k]));
      }
    }
  }

  lemma {:induction false} ForgetRebound(m: Item, revision: int, log: seq<Entry>)
    ensures Forgetful(Rebound(m, revision, log)) == Forgetful(m)
  {
  }

  lemma {:induction false} ChaseLogical(log: seq<Entry>, ref: Ref)
    requires forall n :: n in log ==> n.source.Logical() == n.target.Logical()
    ensures Chase(log, ref).Logical() == ref.Logical()
    decreases |log|
  {
    if log != [] { ChaseLogical(log[..|log| - 1], ref); }
  }

  lemma {:induction false} ShapeKept(w0: Work, w: Work, tr: Trace)
    requires RunSoFar(w0, w, tr) && tr.popped == |tr.log|
    ensures SameShape(w0, w)
  {
    var log := tr.log;
    forall i, k, j | 0 <= i < |Live(w0)| && Live(w0)[i].Status() == Pending && 0 <= j < |Live(w0)|
                     && 0 <= k < |Live(w0)[i].Mentions()| && k < |Live(w)[i].Mentions()|
      ensures Live(w)[i].Mentions()[k] == Live(w)[j].AsRef() <==> Substitute(w0.queue[0], Live(w0)[i].Mentions()[k]) == Live(w0)[j].AsRef()
    {
      LogicalKept(w0, w, tr, i);
      assert log[..tr.popped] == log;
      MentionLeads(w0, w, log, i, k, j);
    }
  }

  lemma {:induction false} MentionLeads(w0: Work, w: Work, log: seq<Entry>, i: nat, k: nat, j: nat)
    requires StartOk(w0) && TargetsFresh(w0, w, log) && log != [] && w0.queue == [log[0]]
    requires i < |Live(w0)| && Live(w0)[i].Status() == Pending && k < |Live(w0)[i].Mentions()| && j < |Live(w0)|
    ensures Chase(log, Live(w0)[i].Mentions()[k]) == Chase(log, Live(w0)[j].AsRef())
       <==> Substitute(w0.queue[0], Live(w0)[i].Mentions()[k]) == Live(w0)[j].AsRef()
  {
    var n := |log|;
    assert log[..n] == log;
    var x, y := Live(w0)[i].Mentions()[k], Live(w0)[j].AsRef();
    LiveRefs(w0);
    assert RefsOf(Live(w0))[j] == y;
    ChaseFirst(log, n, x);
    ChaseFirst(log, n, y);
    assert x in Live(w0)[i].Mentions();
    assert Settled(w0, Substitute(log[0], x)) && Settled(w0, y);
    if Chase(log, x) == Chase(log, y) { ChaseInjective(w0, w, log, n, Substitute(log[0], x), y); }
  }

  /** Once led through the whole log, nothing leads to a superseded reference. */
  lemma {:induction false} ChaseLeavesSources(log: seq<Entry>, ref: Ref)
    requires forall i, j :: 0 <= j <= i < |log| ==> log[i].target != log[j].source
    ensures forall n :: n in log ==> Chase(log, ref) != n.source
    decreases |log|
  {
    if log != [] {
      var before := log[..|log| - 1];
      ChaseLeavesSources(before, ref);
      forall n | n in log ensures Chase(log, ref) != n.source {
        var j :| 0 <= j < |log| && log[j] == n;
        if j < |log| - 1 { assert before[j] == n; }
      }
    }
  }

  /** At every step of a run, a pending live item that mentions a superseded reference has the rewrite of that
      reference still in the queue. */
  lemma {:induction false} StaleIsQueued(w0: Work, w: Work, tr: Trace, i: nat, p: nat)
    requires RunSoFar(w0, w, tr) && i < |Live(w)| && Live(w)[i].Status() == Pending
    requires p < |tr.log| && tr.log[p].source in Live(w)[i].Mentions()
    ensures tr.log[p] in w.queue
  {
    var done := tr.log[..tr.popped];
    PendingIsRebound(w0, w, tr, i);
    var k :| 0 <= k < |Live(w)[i].Mentions()| && Live(w)[i].Mentions()[k] == tr.log[p].source;
    ChaseLeavesSources(done, Live(w0)[i].Mentions()[k]);
    assert w.queue == tr.log[tr.popped..];
  }

  lemma {:induction false} PendingIsRebound(w0: Work, w: Work, tr: Trace, i: nat)
    requires RunSoFar(w0, w, tr) && i < |Live(w)| && Live(w)[i].Status() == Pending
    ensures |Live(w0)| == |Live(w)| && Live(w)[i].Mentions() == ChaseAll(tr.log[..tr.popped], Live(w0)[i].Mentions())
  {
    ReboundMentions(Live(w0)[i], Live(w)[i].AsRef().revision, tr.log[..tr.popped]);
  }

  lemma {:induction false} StaleGone(w0: Work, w: Work, tr: Trace)
    requires RunSoFar(w0, w, tr) && tr.popped == |tr.log|
    ensures NothingStale(w0, w)
  {
    var log := tr.log;
    assert log[..tr.popped] == log;
    forall i, ref | 0 <= i < |Live(w)| && Live(w)[i].Status() == Pending && ref in Live(w)[i].Mentions()
      ensures !Superseded(w0, w, ref)
    {
      LogicalKept(w0, w, tr, i);
      var k :| 0 <= k < |Live(w)[i].Mentions()| && Live(w)[i].Mentions()[k] == ref;
      ChaseLeavesSources(log, Live(w0)[i].Mentions()[k]);
      if Superseded(w0, w, ref) { SupersededIsSource(w0, w, tr, ref); }
    }
  }

  lemma {:induction false} OtherStays(w0: Work, w: Work, tr: Trace, i: nat, k: nat)
    requires RunSoFar(w0, w, tr) && tr.popped == |tr.log| && i < |Live(w0)| && k < |Live(w0)[i].Mentions()|
    ensures MentionStays(w0, w, i, k)
  {
    var ref := Live(w0)[i].Mentions()[k];
    assert tr.log[..tr.popped] == tr.log;
    LogicalKept(w0, w, tr, i);
    if !Superseded(w0, w, ref) {
      forall n | n in tr.log ensures n.source != ref { if n.source == ref { SourceIsSuperseded(w0, w, tr, n); } }
      ChaseUntouched(tr.log, ref);
    }
  }

  // ---------------------------------------------------------------- the sources of the log

  lemma {:induction false} LiveAt(w: Work, ref: Ref) returns (j: nat)
    requires WorkOk(w) && IsLive(w, ref)
    ensures j < |Live(w)| && Live(w)[j].AsRef() == ref
  {
    LiveRefs(w);
    j :| 0 <= j < |RefsOf(Live(w))| && RefsOf(Live(w))[j] == ref;
  }

  lemma {:induction false} NotLiveAt(w: Work, ref: Ref)
    requires WorkOk(w) && forall j :: 0 <= j < |Live(w)| ==> Live(w)[j].AsRef() != ref
    ensures !IsLive(w, ref)
  {
    if IsLive(w, ref) { var j := LiveAt(w, ref); }
  }

  lemma {:induction false} SupersededIsSource(w0: Work, w: Work, tr: Trace, ref: Ref)
    requires RunSoFar(w0, w, tr) && tr.popped == |tr.log| && Superseded(w0, w, ref)
    ensures IsSource(tr.log, ref)
  {
    if ref == w0.queue[0].source {
      assert tr.log[0] in tr.log;
    } else if IsLive(w0, ref) {
      var j := LiveAt(w0, ref);
      if Live(w)[j] == Live(w0)[j] { ListedLive(w, j); } else { MovedRefIsSource(w0, w, tr, j); }
    } else {
      var n :| n in tr.log && n.target == ref;
      var q :| 0 <= q < |tr.log| && tr.log[q] == n;
      TargetLeavesOrStays(w0, w, tr, q);
    }
  }

  lemma {:induction false} ListedLive(w: Work, j: nat)
    requires WorkOk(w) && j < |Live(w)|
    ensures IsLive(w, Live(w)[j].AsRef())
  {
    LiveRefs(w);
    assert RefsOf(Live(w))[j] in RefsOf(Live(w));
  }

  lemma {:induction false} LeadsToTarget(log: seq<Entry>, q: nat, ref: Ref)
    requires q < |log| && Chase(log[..q], ref) == log[q].source && !IsSource(log, log[q].target)
    ensures Chase(log, ref) == log[q].target
  {
    assert log == log[..q + 1] + log[q + 1..] && log[..q + 1] == log[..q] + [log[q]];
    ChaseConcat(log[..q + 1], log[q + 1..], ref);
    ChaseSnoc(log[..q], log[q], ref);
    forall n | n in log[q + 1..] ensures n.source != log[q].target { assert n in log; }
    ChaseUntouched(log[q + 1..], log[q].target);
  }

  /** A revision that the run listed is active at the end unless the run superseded it in turn. */
  lemma {:induction false} TargetLeavesOrStays(w0: Work, w: Work, tr: Trace, q: nat)
    requires RunSoFar(w0, w, tr) && 1 <= q < |tr.log|
    ensures IsLive(w, tr.log[q].target) || IsSource(tr.log, tr.log[q].target)
  {
    var i := tr.walks[q][|tr.walks[q]| - 1];
    assert Revises(w0, tr.log, q, i);
    if !IsSource(tr.log, tr.log[q].target) {
      LeadsToTarget(tr.log, q, Live(w0)[i].AsRef());
      ListedLive(w, i);
    }
  }

  lemma {:induction false} SourceIsSuperseded(w0: Work, w: Work, tr: Trace, n: Entry)
    requires RunSoFar(w0, w, tr) && n in tr.log
    ensures Superseded(w0, w, n.source)
  {
    var log := tr.log;
    var q :| 0 <= q < |log| && log[q] == n;
    if q > 0 {
      forall j | 0 <= j < |Live(w)| ensures Live(w)[j].AsRef() != n.source { ChaseLeavesSources(log, Live(w0)[j].AsRef()); }
      NotLiveAt(w, n.source);
      var i := tr.walks[q][|tr.walks[q]| - 1];
      assert Revises(w0, log, q, i);
      ChaseOfLive(w0, w, log, q, i);
    }
  }

  /** A live reference leads to itself or to a revision that the run listed. */
  lemma {:induction false} ChaseOfLive(w0: Work, w: Work, log: seq<Entry>, q: nat, i: nat)
    requires StartOk(w0) && TargetsFresh(w0, w, log) && 1 <= q <= |log| && w0.queue == [log[0]] && i < |Live(w0)|
    ensures var ref := Chase(log[..q], Live(w0)[i].AsRef()); IsLive(w0, ref) || !Known(w0, ref)
  {
    var y := Live(w0)[i].AsRef();
    ListedLive(w0, i);
    ChaseFirst(log, q, y);
    ChaseRange(log[1..q], y);
  }

  lemma {:induction false} MovedRefIsSource(w0: Work, w: Work, tr: Trace, j: nat)
    requires RunSoFar(w0, w, tr) && tr.popped == |tr.log| && j < |Live(w0)| && Live(w)[j] != Live(w0)[j]
    ensures IsSource(tr.log, Live(w0)[j].AsRef())
  {
    var log, m0 := tr.log, Live(w0)[j];
    assert log[..tr.popped] == log;
    if forall n :: n in log ==> n.source != m0.AsRef() {
      ChaseUntouched(log, m0.AsRef());
      // The item was never revised, so no popped entry matched any of its mentions.
      UnrevisedIsUnmoved(w0, w, tr, j);
    }
  }

  lemma {:induction false} UnrevisedIsUnmoved(w0: Work, w: Work, tr: Trace, j: nat)
    requires RunSoFar(w0, w, tr) && tr.popped == |tr.log| && j < |Live(w0)|
    requires forall n :: n in tr.log ==> n.source != Live(w0)[j].AsRef()
    ensures Live(w)[j] == Live(w0)[j]
  {
    var log, m0 := tr.log, Live(w0)[j];
    assert log[..tr.popped] == log;
    ChaseUntouched(log, m0.AsRef());
    if m0.Status() == Pending {
      UnservedStays(w0, log, |log|, j);
      assert log[..|log|] == log;
    }
  }

  lemma {:induction false} UnservedStays(w0: Work, log: seq<Entry>, p: nat, j: nat)
    requires WorkOk(w0) && AllServed(w0, log, |log|) && p <= |log| && j < |Live(w0)| && Live(w0)[j].Status() == Pending
    requires forall n :: n in log ==> n.source != Live(w0)[j].AsRef()
    ensures Rebound(Live(w0)[j], Live(w0)[j].AsRef().revision, log[..p]) == Live(w0)[j]
    decreases p
  {
    var m0 := Live(w0)[j];
    if p == 0 {
      assert log[..0] == [];
      ReboundNothing(m0);
    } else {
      UnservedStays(w0, log, p - 1, j);
      assert log[..p] == log[..p - 1] + [log[p - 1]];
      assert Served(w0, log, p - 1, j);
      if log[p - 1].source in ChaseAll(log[..p - 1], m0.Mentions()) {
        var q: nat :| p - 1 < q && Revises(w0, log, q, j);
        RevisedIsSource(w0, log, q, j);
      } else {
        ReboundUnmentioned(m0, m0.AsRef().revision, log[..p - 1], log[p - 1]);
      }
    }
  }

  lemma {:induction false} RevisedIsSource(w0: Work, log: seq<Entry>, q: nat, j: nat)
    requires WorkOk(w0) && Revises(w0, log, q, j)
    ensures IsSource(log, Live(w0)[j].AsRef())
  {
    var ref := Live(w0)[j].AsRef();
    if forall n :: n in log[..q] ==> n.source != ref {
      ChaseUntouched(log[..q], ref);
      assert log[q] in log;
    } else {
      var n :| n in log[..q] && n.source == ref;
      assert n in log;
    }
  }
}
