/** Every round keeps the run invariant, so it holds of every run of the worklist. */
module RewriteRun {
  import opened Core
  import opened Items
  import opened Rewrite
  import opened RewritePass
  import opened RewriteRound
  import opened RewriteLog

  /** The facts about one round that the step lemmas share. */
  ghost predicate RoundFrom(w0: Work, w: Work, tr: Trace, w': Work, news: seq<Entry>) {
    && RunSoFar(w0, w, tr) && WorkOk(w') && tr.popped < |tr.log|
    && RoundMoves(w, tr.log[tr.popped], w') && RoundQueues(w, tr.log[tr.popped], w', news)
  }

  /** The live item that a new entry revises. */
  ghost function Hit(w: Work, e: Entry, w': Work, news: seq<Entry>, n: Entry): (i: nat)
    requires WorkOk(w) && WorkOk(w') && RoundQueues(w, e, w', news) && n in news
    ensures i < |Live(w)| && Wants(Live(w)[i], e)
    ensures n == Entry(Live(w)[i].AsRef(), Live(w')[i].AsRef())
  {
    var i: nat :| i < |RefsOf(Live(w))| && Wants(Live(w)[i], e) && n == Entry(RefsOf(Live(w))[i], RefsOf(Live(w'))[i]);
    i
  }

  lemma {:induction false} SameRefSameItem(w: Work, i: nat, j: nat)
    requires WorkOk(w) && i < |Live(w)| && j < |Live(w)| && Live(w)[i].AsRef() == Live(w)[j].AsRef()
    ensures Live(w)[i] == Live(w)[j]
  {
  }

  /** What the new entries do to a live reference: exactly the round's move. */
  lemma {:induction false} NewsLead(w: Work, e: Entry, w': Work, news: seq<Entry>, i: nat)
    requires WorkOk(w) && WorkOk(w') && RoundMoves(w, e, w') && RoundQueues(w, e, w', news) && i < |Live(w)|
    ensures Chase(news, Live(w)[i].AsRef()) == Live(w')[i].AsRef()
    ensures Wants(Live(w)[i], e) ==> exists a: nat :: a < |news| && Chase(news[..a], Live(w)[i].AsRef()) == news[a].source == Live(w)[i].AsRef()
  {
    var ref := Live(w)[i].AsRef();
    NewsApart(w, e, w', news);
    if Wants(Live(w)[i], e) {
      assert Entry(RefsOf(Live(w))[i], RefsOf(Live(w'))[i]) in news;
      var a: nat :| a < |news| && news[a] == Entry(ref, Live(w')[i].AsRef());
      ChaseOne(news, a);
    } else {
      forall n | n in news ensures n.source != ref {
        var k := Hit(w, e, w', news, n);
        if Live(w)[k].AsRef() == ref { SameRefSameItem(w, i, k); }
      }
      ChaseUntouched(news, ref);
    }
  }

  lemma {:induction false} NewsApart(w: Work, e: Entry, w': Work, news: seq<Entry>)
    requires WorkOk(w) && WorkOk(w') && RoundQueues(w, e, w', news)
    ensures forall n :: n in news ==> Known(w, n.source) && !Known(w, n.target) && Known(w', n.target)
    ensures forall i, j :: 0 <= i < j < |news| ==> news[i].source != news[j].source && news[i].target != news[j].target
    ensures forall i, j :: 0 <= i < |news| && 0 <= j < |news| ==> news[i].target != news[j].source
  {
    LiveRefs(w);
    LiveRefs(w');
    forall n | n in news ensures Known(w, n.source) && Known(w', n.target) {
      var k := Hit(w, e, w', news, n);
    }
  }

  lemma {:induction false} ImageContinues(w0: Work, w: Work, tr: Trace, w': Work, news: seq<Entry>)
    requires RoundFrom(w0, w, tr, w', news)
    ensures ImageOfStart(w0, w', Trace(tr.log + news, tr.popped + 1, []))
  {
    var e, log' := tr.log[tr.popped], tr.log + news;
    assert log'[..tr.popped + 1] == tr.log[..tr.popped] + [e];
    forall i | 0 <= i < |Live(w0)|
      ensures Live(w')[i].AsRef() == Chase(log', Live(w0)[i].AsRef())
      ensures Live(w')[i] == if Live(w0)[i].Status() == Pending
                             then Rebound(Live(w0)[i], Live(w')[i].AsRef().revision, log'[..tr.popped + 1])
                             else Live(w0)[i]
    {
      var m0, m := Live(w0)[i], Live(w)[i];
      ChaseConcat(tr.log, news, m0.AsRef());
      NewsLead(w, e, w', news, i);
      if m0.Status() == Pending { ReboundFurther(m0, m, e, Live(w')[i], tr.log[..tr.popped]); }
    }
  }

  lemma {:induction false} ReboundFurther(m0: Item, m: Item, e: Entry, m': Item, log: seq<Entry>)
    requires m == Rebound(m0, m.AsRef().revision, log) && m0.Status() == Pending
    requires m' == if Wants(m, e) then Revised(m, e) else m
    ensures m' == Rebound(m0, m'.AsRef().revision, log + [e])
  {
    ReboundMentions(m0, m.AsRef().revision, log);
    ReboundRevised(m0, m.AsRef().revision, log, e);
    if !Wants(m, e) { ReboundUnmentioned(m0, m.AsRef().revision, log, e); }
  }

  lemma {:induction false} FreshContinues(w0: Work, w: Work, tr: Trace, w': Work, news: seq<Entry>)
    requires RoundFrom(w0, w, tr, w', news)
    ensures TargetsFresh(w0, w', tr.log + news)
  {
    NewsApart(w, tr.log[tr.popped], w', news);
    KnownGrows(w, w');
    forall a | 0 <= a < |news|
      ensures IsLiveId(w0, news[a].target.Logical())
    {
      var k := Hit(w, tr.log[tr.popped], w', news, news[a]);
      LogicalKept(w0, w, tr, k);
    }
    FreshCombine(w0, w, tr.log, w', news);
  }

  lemma {:induction false} FreshCombine(w0: Work, w: Work, log: seq<Entry>, w': Work, news: seq<Entry>)
    requires WorkOk(w0) && TargetsFresh(w0, w, log) && log != []
    requires forall ref :: Known(w, ref) ==> Known(w', ref)
    requires forall n :: n in news ==> Known(w, n.source) && !Known(w, n.target) && Known(w', n.target) && n.source.Logical() == n.target.Logical()
    requires forall i, j :: 0 <= i < j < |news| ==> news[i].target != news[j].target
    requires forall a :: 0 <= a < |news| ==> IsLiveId(w0, news[a].target.Logical())
    ensures TargetsFresh(w0, w', log + news)
  {
  }

  lemma {:induction false} KnownGrows(w: Work, w': Work)
    requires w.tasks <= w'.tasks && w.groups <= w'.groups
    ensures forall ref :: Known(w, ref) ==> Known(w', ref)
  {
    forall ref | Known(w, ref) ensures Known(w', ref) {
      if HasRef(TaskItems(w.tasks), ref) {
        var i :| 0 <= i < |w.tasks| && TaskItems(w.tasks)[i].AsRef() == ref;
        assert TaskItems(w'.tasks)[i].AsRef() == ref;
      } else {
        var i :| 0 <= i < |w.groups| && GroupItems(w.groups)[i].AsRef() == ref;
        assert GroupItems(w'.groups)[i].AsRef() == ref;
      }
    }
  }

  /** A live item keeps its logical id for the whole run. */
  lemma {:induction false} LogicalKept(w0: Work, w: Work, tr: Trace, i: nat)
    requires RunSoFar(w0, w, tr) && i < |Live(w0)|
    ensures Live(w)[i].AsRef().Logical() == Live(w0)[i].AsRef().Logical()
    ensures Live(w)[i].Status() == Live(w0)[i].Status()
    ensures Live(w0)[i].Status() == Pending ==> Live(w)[i].Mentions() == ChaseAll(tr.log[..tr.popped], Live(w0)[i].Mentions())
  {
    if Live(w0)[i].Status() == Pending {
      ReboundMentions(Live(w0)[i], Live(w)[i].AsRef().revision, tr.log[..tr.popped]);
    }
  }

  /** Led through a log whose targets are all different and none of them `x` or `y`, two different
      references never meet. */
  lemma {:induction false} ChaseApart(log: seq<Entry>, x: Ref, y: Ref)
    requires x != y
    requires forall i, j :: 0 <= j < i < |log| ==> log[i].target != log[j].target
    requires forall i :: 0 <= i < |log| ==> log[i].target != x && log[i].target != y
    ensures Chase(log, x) != Chase(log, y)
    decreases |log|
  {
    if log != [] {
      var before := log[..|log| - 1];
      ChaseApart(before, x, y);
      ChaseRange(before, x);
      ChaseRange(before, y);
    }
  }

  lemma {:induction false} ChaseInjective(w0: Work, w: Work, log: seq<Entry>, p: nat, x: Ref, y: Ref)
    requires StartOk(w0) && TargetsFresh(w0, w, log) && 1 <= p <= |log|
    requires Settled(w0, x) && Settled(w0, y) && Chase(log[1..p], x) == Chase(log[1..p], y)
    ensures x == y
  {
    var tail := log[1..p];
    forall i | 0 <= i < |tail|
      ensures tail[i].target != x && tail[i].target != y
      ensures forall j :: 0 <= j < i ==> tail[i].target != tail[j].target
    {
      assert tail[i] == log[i + 1];
      TargetNotSettled(w0, w, log, i + 1, x);
      TargetNotSettled(w0, w, log, i + 1, y);
    }
    if x != y { ChaseApart(tail, x, y); }
  }

  lemma {:induction false} TargetNotSettled(w0: Work, w: Work, log: seq<Entry>, i: nat, x: Ref)
    requires StartOk(w0) && TargetsFresh(w0, w, log) && 1 <= i < |log| && Settled(w0, x)
    ensures log[i].target != x
  {
  }

  /** If a pending item mentions what entry `p` supersedes, it depends on the item that entry `p` revised. */
  lemma {:induction false} WalkExtends(w0: Work, w: Work, tr: Trace, i: nat)
    requires RunSoFar(w0, w, tr) && tr.popped < |tr.log| && i < |Live(w0)|
    requires Live(w0)[i].Status() == Pending
    requires tr.log[tr.popped].source in ChaseAll(tr.log[..tr.popped], Live(w0)[i].Mentions())
    ensures tr.popped == 0 ==> IsWalk(w0, [i])
    ensures tr.popped > 0 ==> IsWalk(w0, tr.walks[tr.popped] + [i])
  {
    var p, log, mentions := tr.popped, tr.log, Live(w0)[i].Mentions();
    var d :| 0 <= d < |mentions| && Chase(log[..p], mentions[d]) == log[p].source;
    if p == 0 {
      assert log[..0] == [];
    } else {
      var walk := tr.walks[p];
      var j := walk[|walk| - 1];
      assert Revises(w0, log, p, j);
      SameChaseDepends(w0, w, log, p, i, d, j);
      WalkSnoc(w0, walk, i);
    }
  }

  lemma {:induction false} SameChaseDepends(w0: Work, w: Work, log: seq<Entry>, p: nat, i: nat, d: nat, j: nat)
    requires StartOk(w0) && TargetsFresh(w0, w, log) && 1 <= p <= |log| && w0.queue == [log[0]]
    requires i < |Live(w0)| && j < |Live(w0)| && d < |Live(w0)[i].Mentions()| && Live(w0)[i].Status() == Pending
    requires Chase(log[..p], Live(w0)[i].Mentions()[d]) == Chase(log[..p], Live(w0)[j].AsRef())
    ensures DependsOn(w0, i, Live(w0)[j].AsRef())
  {
    var mentions := Live(w0)[i].Mentions();
    var x, y := Substitute(log[0], mentions[d]), Live(w0)[j].AsRef();
    LiveRefs(w0);
    assert RefsOf(Live(w0))[j] == y;
    ChaseFirst(log, p, mentions[d]);
    ChaseFirst(log, p, y);
    assert mentions[d] in mentions;
    assert Settled(w0, x) && Settled(w0, y);
    ChaseInjective(w0, w, log, p, x, y);
    assert ReplaceRef(mentions, w0.queue[0])[d] == y;
  }

  lemma {:induction false} WalkSnoc(w0: Work, walk: seq<nat>, i: nat)
    requires StartOk(w0) && IsWalk(w0, walk) && DependsOn(w0, i, Live(w0)[walk[|walk| - 1]].AsRef())
    ensures IsWalk(w0, walk + [i])
  {
  }

  lemma {:induction false} ChaseFirst(log: seq<Entry>, p: nat, ref: Ref)
    requires 1 <= p <= |log|
    ensures Chase(log[..p], ref) == Chase(log[1..p], Substitute(log[0], ref))
  {
    assert log[..p] == [log[0]] + log[1..p];
    ChaseConcat([log[0]], log[1..p], ref);
    ChaseSnoc([], log[0], ref);
    assert [] + [log[0]] == [log[0]];
  }

  ghost predicate LeadsTo(w0: Work, log: seq<Entry>, walk: seq<nat>, q: nat)
    requires StartOk(w0)
  {
    IsWalk(w0, walk) && Revises(w0, log, q, walk[|walk| - 1])
  }

  /** A walk to new entry `a` extends the walk to the popped one. */
  ghost predicate Walkable(w0: Work, tr: Trace, news: seq<Entry>, a: nat)
    requires StartOk(w0) && tr.popped < |tr.walks|
  {
    exists i: nat :: LeadsTo(w0, tr.log + news, tr.walks[tr.popped] + [i], |tr.log| + a)
  }

  lemma {:induction false} BuildWalks(w0: Work, tr: Trace, news: seq<Entry>, count: nat) returns (more: seq<seq<nat>>)
    requires StartOk(w0) && tr.popped < |tr.walks| && count <= |news|
    requires forall a :: 0 <= a < |news| ==> Walkable(w0, tr, news, a)
    ensures |more| == count
    ensures forall a :: 0 <= a < count ==> LeadsTo(w0, tr.log + news, more[a], |tr.log| + a) && |more[a]| == |tr.walks[tr.popped]| + 1
  {
    more := seq(count, a requires 0 <= a < count => OneWalk(w0, tr, news, a));
  }

  ghost function OneWalk(w0: Work, tr: Trace, news: seq<Entry>, a: nat): (walk: seq<nat>)
    requires StartOk(w0) && tr.popped < |tr.walks| && Walkable(w0, tr, news, a)
    ensures LeadsTo(w0, tr.log + news, walk, |tr.log| + a) && |walk| == |tr.walks[tr.popped]| + 1
  {
    var i: nat :| LeadsTo(w0, tr.log + news, tr.walks[tr.popped] + [i], |tr.log| + a);
    tr.walks[tr.popped] + [i]
  }

  lemma {:induction false} WalksCombine(w0: Work, tr: Trace, news: seq<Entry>, more: seq<seq<nat>>, popped: nat)
    requires StartOk(w0) && WalksLead(w0, tr) && |more| == |news|
    requires forall a :: 0 <= a < |more| ==> LeadsTo(w0, tr.log + news, more[a], |tr.log| + a)
    ensures WalksLead(w0, Trace(tr.log + news, popped, tr.walks + more))
  {
    var tr' := Trace(tr.log + news, popped, tr.walks + more);
    forall q | 1 <= q < |tr'.log|
      ensures LeadsTo(w0, tr'.log, tr'.walks[q], q)
    {
      if q < |tr.log| {
        assert (tr.log + news)[..q] == tr.log[..q];
        assert tr'.walks[q] == tr.walks[q];
      } else {
        assert tr'.walks[q] == more[q - |tr.log|];
      }
    }
  }

  lemma {:induction false} NewWalkable(w0: Work, w: Work, tr: Trace, w': Work, news: seq<Entry>, a: nat)
    requires RoundFrom(w0, w, tr, w', news) && a < |news|
    ensures Walkable(w0, tr, news, a)
  {
    var i := RevisedBy(w0, w, tr, w', news, a);
    WalkExtends(w0, w, tr, i);
    NewsApart(w, tr.log[tr.popped], w', news);
    WalkableBy(w0, tr, news, a, i);
  }

  /** The item a new entry revises mentioned the popped source; its reference is the entry's source. */
  lemma {:induction false} RevisedBy(w0: Work, w: Work, tr: Trace, w': Work, news: seq<Entry>, a: nat) returns (i: nat)
    requires RoundFrom(w0, w, tr, w', news) && a < |news|
    ensures i < |Live(w0)| && Live(w0)[i].Status() == Pending
    ensures tr.log[tr.popped].source in ChaseAll(tr.log[..tr.popped], Live(w0)[i].Mentions())
    ensures news[a].source == Chase(tr.log, Live(w0)[i].AsRef())
  {
    i := Hit(w, tr.log[tr.popped], w', news, news[a]);
    LogicalKept(w0, w, tr, i);
  }

  lemma {:induction false} WalkableBy(w0: Work, tr: Trace, news: seq<Entry>, a: nat, i: nat)
    requires StartOk(w0) && tr.popped < |tr.walks| && tr.walks[0] == [] && a < |news| && i < |Live(w0)|
    requires tr.popped == 0 ==> IsWalk(w0, [i])
    requires tr.popped > 0 ==> IsWalk(w0, tr.walks[tr.popped] + [i])
    requires news[a].source == Chase(tr.log, Live(w0)[i].AsRef())
    requires forall b, c :: 0 <= b < c < |news| ==> news[b].source != news[c].source
    ensures Walkable(w0, tr, news, a)
  {
    if tr.popped == 0 { assert [] + [i] == [i]; }
    NewEntryRevises(w0, tr.log, news, a, i);
    assert LeadsTo(w0, tr.log + news, tr.walks[tr.popped] + [i], |tr.log| + a);
  }

  lemma {:induction false} NewEntryRevises(w0: Work, log: seq<Entry>, news: seq<Entry>, a: nat, i: nat)
    requires WorkOk(w0) && a < |news| && i < |Live(w0)|
    requires news[a].source == Chase(log, Live(w0)[i].AsRef())
    requires forall b, c :: 0 <= b < c < |news| ==> news[b].source != news[c].source
    ensures Revises(w0, log + news, |log| + a, i)
  {
    assert (log + news)[..|log| + a] == log + news[..a];
    ChaseConcat(log, news[..a], Live(w0)[i].AsRef());
    ChaseUntouched(news[..a], news[a].source);
  }

  lemma {:induction false} ServingContinues(w0: Work, w: Work, tr: Trace, w': Work, news: seq<Entry>)
    requires RoundFrom(w0, w, tr, w', news)
    ensures AllServed(w0, tr.log + news, tr.popped + 1)
  {
    var log' := tr.log + news;
    forall p: nat, i: nat | p < tr.popped + 1 && p < |log'| && i < |Live(w0)|
      ensures Served(w0, log', p, i)
    {
      if p < tr.popped { StaysServed(w0, tr.log, news, p, i); } else { PoppedServed(w0, w, tr, w', news, i); }
    }
  }

  lemma {:induction false} StaysServed(w0: Work, log: seq<Entry>, news: seq<Entry>, p: nat, i: nat)
    requires WorkOk(w0) && p < |log| && i < |Live(w0)| && Served(w0, log, p, i)
    ensures Served(w0, log + news, p, i)
  {
    var log' := log + news;
    assert log'[..p] == log[..p];
    if Live(w0)[i].Status() == Pending && log'[p].source in ChaseAll(log'[..p], Live(w0)[i].Mentions()) {
      var q: nat :| p < q && Revises(w0, log, q, i);
      assert log'[..q] == log[..q];
      assert Revises(w0, log', q, i);
    }
  }

  lemma {:induction false} PoppedServed(w0: Work, w: Work, tr: Trace, w': Work, news: seq<Entry>, i: nat)
    requires RoundFrom(w0, w, tr, w', news) && i < |Live(w0)|
    ensures Served(w0, tr.log + news, tr.popped, i)
  {
    LogicalKept(w0, w, tr, i);
    NewsLead(w, tr.log[tr.popped], w', news, i);
    NewsApart(w, tr.log[tr.popped], w', news);
    ServedByNews(w0, tr.log, tr.popped, news, i);
  }

  lemma {:induction false} ServedByNews(w0: Work, log: seq<Entry>, p: nat, news: seq<Entry>, i: nat)
    requires WorkOk(w0) && p < |log| && i < |Live(w0)|
    requires Live(w0)[i].Status() == Pending && log[p].source in ChaseAll(log[..p], Live(w0)[i].Mentions()) ==>
      exists a: nat :: a < |news| && news[a].source == Chase(log, Live(w0)[i].AsRef())
    requires forall b, c :: 0 <= b < c < |news| ==> news[b].source != news[c].source
    ensures Served(w0, log + news, p, i)
  {
    assert (log + news)[..p] == log[..p];
    if Live(w0)[i].Status() == Pending && log[p].source in ChaseAll(log[..p], Live(w0)[i].Mentions()) {
      var a: nat :| a < |news| && news[a].source == Chase(log, Live(w0)[i].AsRef());
      NewEntryRevises(w0, log, news, a, i);
      assert Revises(w0, log + news, |log| + a, i);
    }
  }

  lemma {:induction false} RunContinues(w0: Work, w: Work, tr: Trace, w': Work) returns (tr': Trace)
    requires RunSoFar(w0, w, tr) && w.queue != [] && Round(w) == Ok(w')
    ensures RunSoFar(w0, w', tr')
    ensures tr'.popped == tr.popped + 1 && tr.log <= tr'.log && tr.walks <= tr'.walks
    ensures forall q :: |tr.log| <= q < |tr'.log| ==> |tr'.walks[q]| == |tr.walks[tr.popped]| + 1
    ensures |tr'.log| - |tr.log| <= |Live(w0)|
  {
    assert tr.log[tr.popped..][0] == tr.log[tr.popped];
    var news := RoundEffect(w, w');
    forall a | 0 <= a < |news| ensures Walkable(w0, tr, news, a) { NewWalkable(w0, w, tr, w', news, a); }
    var more := BuildWalks(w0, tr, news, |news|);
    tr' := Trace(tr.log + news, tr.popped + 1, tr.walks + more);
    RunSoFarContinues(w0, w, tr, w', news, more);
    FewNews(w, tr.log[tr.popped], w', news);
  }

  lemma {:induction false} LogFitsContinues(w0: Work, w: Work, tr: Trace, w': Work, news: seq<Entry>, more: seq<seq<nat>>)
    requires LogFits(w0, w, tr) && w.queue != [] && w'.queue == w.queue[1..] + news && |more| == |news|
    requires w.tasks <= w'.tasks && w.groups <= w'.groups
    ensures LogFits(w0, w', Trace(tr.log + news, tr.popped + 1, tr.walks + more))
  {
  }

  lemma {:induction false} ListingContinues(w0: Work, w: Work, log: seq<Entry>, e: Entry, w': Work, news: seq<Entry>)
    requires WorkOk(w) && WorkOk(w') && RoundQueues(w, e, w', news) && NothingElseListed(w0, w, log)
    ensures NothingElseListed(w0, w', log + news)
  {
    forall ref | Known(w', ref) && !Known(w0, ref) ensures IsTarget(log + news, ref) {
      if Known(w, ref) {
        var n :| n in log && n.target == ref;
        assert n in log + news;
      } else {
        var n :| n in news && n.target == ref;
        assert n in log + news;
      }
    }
  }

  lemma {:induction false} RunSoFarContinues(w0: Work, w: Work, tr: Trace, w': Work, news: seq<Entry>, more: seq<seq<nat>>)
    requires RoundFrom(w0, w, tr, w', news) && |more| == |news|
    requires forall a :: 0 <= a < |more| ==> LeadsTo(w0, tr.log + news, more[a], |tr.log| + a)
    ensures RunSoFar(w0, w', Trace(tr.log + news, tr.popped + 1, tr.walks + more))
  {
    var tr' := Trace(tr.log + news, tr.popped + 1, tr.walks + more);
    assert LogFits(w0, w', tr') by { LogFitsContinues(w0, w, tr, w', news, more); }
    assert ImageOfStart(w0, w', tr') by { ImageContinues(w0, w, tr, w', news); }
    assert TargetsFresh(w0, w', tr'.log) by { FreshContinues(w0, w, tr, w', news); }
    assert NothingElseListed(w0, w', tr'.log) by { ListingContinues(w0, w, tr.log, tr.log[tr.popped], w', news); }
    assert WalksLead(w0, tr') by { WalksCombine(w0, tr, news, more, tr.popped + 1); }
    assert AllServed(w0, tr'.log, tr'.popped) by { ServingContinues(w0, w, tr, w', news); }
  }

  /** A round queues at most one entry per live item. */
  lemma {:induction false} FewNews(w: Work, e: Entry, w': Work, news: seq<Entry>)
    requires WorkOk(w) && WorkOk(w') && RoundQueues(w, e, w', news)
    ensures |news| <= |Live(w)|
  {
    var hits := seq(|news|, a requires 0 <= a < |news| => Hit(w, e, w', news, news[a]));
    forall a, b | 0 <= a < b < |hits|
      ensures hits[a] != hits[b]
    {
      assert news[a].source != news[b].source;
    }
    DistinctIndexes(hits, |Live(w)|);
  }

  /** Pairwise different numbers below `n` are at most `n`. */
  lemma {:induction false} DistinctIndexes(s: seq<nat>, n: nat)
    requires forall a :: 0 <= a < |s| ==> s[a] < n
    requires forall a, b :: 0 <= a < b < |s| ==> s[a] != s[b]
    ensures |s| <= n
    decreases n
  {
    if s != [] {
      assert s[0] < n;
      if n - 1 in s {
        var a :| 0 <= a < |s| && s[a] == n - 1;
        DistinctIndexes(s[..a] + s[a + 1..], n - 1);
      } else {
        DistinctIndexes(s, n - 1);
      }
    }
  }
}
