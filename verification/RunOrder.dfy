/** Worklist runs and the order of dependencies. An order of the live items by logical id, with every pending item
    above what it mentions, is enough for the worklist to leave, and the run hands the order on. */
module RunOrder {
  import opened Core
  import opened Items
  import opened Rewrite
  import opened RewritePass
  import opened RewriteRound
  import opened RewriteLog
  import opened RewriteRun
  import opened RewriteTheorems
  import opened RewriteTermination
  import opened RewriteRaising

  /** Listed but not active. Revisions are never reused, so it will not be active again. */
  ghost predicate Dead(w: Work, ref: Ref) {
    Known(w, ref) && !IsLive(w, ref)
  }

  ghost predicate Below(w: Work, rank: LogicalId -> nat, d: Ref, id: LogicalId) {
    Dead(w, d) || rank(d.Logical()) < rank(id)
  }

  ghost predicate ItemOrdered(w: Work, rank: LogicalId -> nat, m: Item) {
    forall d :: d in m.Mentions() ==> Below(w, rank, d, m.AsRef().Logical())
  }

  /** Every pending live item ranks above all it mentions that is active or still to come. */
  ghost predicate Ordered(w: Work, rank: LogicalId -> nat)
    requires WorkOk(w)
  {
    forall m :: m in Live(w) && m.Status() == Pending ==> ItemOrdered(w, rank, m)
  }

  /** The same as the worklist starts: a mention of the superseded revision counts as one of its successor. */
  ghost predicate StartOrdered(w: Work, rank: LogicalId -> nat)
    requires StartOk(w)
  {
    forall m, d :: m in Live(w) && m.Status() == Pending && d in m.Mentions() ==> Below(w, rank, Substitute(w.queue[0], d), m.AsRef().Logical())
  }

  ghost function RankAt(live: seq<Item>, rank: LogicalId -> nat, i: nat): nat {
    if i < |live| then rank(live[i].AsRef().Logical()) else 0
  }

  lemma {:induction false} StartOrderedTerminates(w: Work, rank: LogicalId -> nat)
    requires StartOk(w) && StartOrdered(w, rank)
    ensures NoWalkRevisits(w) && Terminates(w)
  {
    var live := Live(w);
    var place := (i: nat) => RankAt(live, rank, i);
    forall i: nat, j: nat | j < |Live(w)| && DependsOn(w, i, Live(w)[j].AsRef()) ensures place(j) < place(i) {
      var m, d := Live(w)[i], Live(w)[j].AsRef();
      ListedLive(w, j);
      var k :| 0 <= k < |m.Mentions()| && ReplaceRef(m.Mentions(), w.queue[0])[k] == d;
      assert m.Mentions()[k] in m.Mentions() && Substitute(w.queue[0], m.Mentions()[k]) == d;
      assert Below(w, rank, d, m.AsRef().Logical());
    }
    forall path | IsWalk(w, path) ensures NoRepeat(path) {
      forall a, b | 0 <= a < b < |path| ensures path[a] != path[b] { WalkClimbs(w, place, path, a, b); }
    }
    NoRevisitTerminates(w);
  }

  // ---------------------------------------------------------------- what a finished run lists

  lemma {:induction false} DeadStays(w0: Work, rounds: nat, w: Work)
    requires StartOk(w0) && RunRounds(w0, rounds) == Done(w)
    ensures forall ref :: Known(w0, ref) ==> Known(w, ref)
    ensures forall ref :: Dead(w0, ref) ==> Dead(w, ref)
  {
    var tr := RunFinishes(w0, rounds, w);
    KnownGrows(w0, w);
    forall ref | Dead(w0, ref) ensures Dead(w, ref) {
      if IsLive(w, ref) {
        var j := LiveAt(w, ref);
        assert tr.log[..|tr.log|] == tr.log;
        ChaseOfLive(w0, w, tr.log, |tr.log|, j);
      }
    }
  }

  /** A mention after the run is what it was, or names a listed revision. */
  ghost predicate MentionKept(w0: Work, w: Work, i: nat, k: nat)
    requires WorkOk(w0) && WorkOk(w) && i < |Live(w0)| && i < |Live(w)|
  {
    k < |Live(w)[i].Mentions()| && k < |Live(w0)[i].Mentions()| ==>
      Live(w)[i].Mentions()[k] == Live(w0)[i].Mentions()[k] || Known(w, Live(w)[i].Mentions()[k])
  }

  lemma {:induction false} RunMentions(w0: Work, w: Work, tr: Trace, i: nat, k: nat)
    requires RunSoFar(w0, w, tr) && tr.popped == |tr.log| && i < |Live(w0)|
    ensures i < |Live(w)| && MentionKept(w0, w, i, k)
  {
    assert tr.log[..tr.popped] == tr.log;
    LogicalKept(w0, w, tr, i);
    if k < |Live(w)[i].Mentions()| && k < |Live(w0)[i].Mentions()| { ChaseRange(tr.log, Live(w0)[i].Mentions()[k]); }
  }

  lemma {:induction false} RunListsLiveIds(w0: Work, w: Work, tr: Trace, ref: Ref)
    requires RunSoFar(w0, w, tr) && Known(w, ref)
    ensures Known(w0, ref) || IsLiveId(w0, ref.Logical())
  {
    if !Known(w0, ref) { var n :| n in tr.log && n.target == ref; }
  }

  ghost predicate NewestWork(w: Work) {
    WorkOk(w) && LiveIsNewest(w)
  }

  lemma {:induction false} RunKeepsNewest(w0: Work, rounds: nat, w: Work)
    requires NewestWork(w0) && RunRounds(w0, rounds) == Done(w)
    ensures NewestWork(w)
  {
    forall a, b | NewestWork(a) && Follows(a, b) ensures NewestWork(b) {
      var news := RoundEffect(a, b);
      NewestContinues(a, b, news);
    }
    RunKeeps(a => NewestWork(a), w0, rounds, w);
  }

  // ---------------------------------------------------------------- what a finished run keeps

  /** Between two operations: the active revisions are the newest, and all that pending ones mention is listed, or
      is one of the `future` references, whose logical ids nothing has yet. */
  ghost predicate Tidy(w: Work, future: set<Ref>) {
    && WorkOk(w) && LiveIsNewest(w)
    && (forall m :: m in Live(w) && m.Status() == Pending ==> MentionsListed(w, future, m))
    && forall f :: f in future ==> NewId(w, f.Logical())
  }

  ghost predicate MentionsListed(w: Work, future: set<Ref>, m: Item) {
    forall d :: d in m.Mentions() ==> Known(w, d) || d in future
  }

  ghost predicate NewId(w: Work, id: LogicalId) {
    forall ref :: Known(w, ref) ==> ref.Logical() != id
  }

  lemma {:induction false} TidyIsSettled(w: Work, future: set<Ref>)
    requires Tidy(w, future)
    ensures MentionsSettled(w)
  {
    forall i, ref | 0 <= i < |Live(w)| && Live(w)[i].Status() == Pending && ref in Live(w)[i].Mentions() ensures Settled(w, ref) {
      assert Live(w)[i] in Live(w);
      assert MentionsListed(w, future, Live(w)[i]);
      if !Known(w, ref) { NewIdNotLive(w, ref.Logical()); }
    }
  }

  lemma {:induction false} NewIdNotLive(w: Work, id: LogicalId)
    requires WorkOk(w) && NewId(w, id)
    ensures !IsLiveId(w, id)
  {
    LiveRefs(w);
  }

  lemma {:induction false} NewIdStays(w0: Work, w: Work, tr: Trace, id: LogicalId)
    requires RunSoFar(w0, w, tr) && NewId(w0, id)
    ensures NewId(w, id)
  {
    NewIdNotLive(w0, id);
    forall ref | Known(w, ref) ensures ref.Logical() != id { RunListsLiveIds(w0, w, tr, ref); }
  }

  lemma {:induction false} RunKeepsListed(w0: Work, w: Work, tr: Trace, future: set<Ref>, i: nat)
    requires RunSoFar(w0, w, tr) && tr.popped == |tr.log| && i < |Live(w)| && Live(w)[i].Status() == Pending
    requires i < |Live(w0)| && MentionsListed(w0, future, Live(w0)[i]) && forall ref :: Known(w0, ref) ==> Known(w, ref)
    ensures MentionsListed(w, future, Live(w)[i])
  {
    LogicalKept(w0, w, tr, i);
    forall d | d in Live(w)[i].Mentions() ensures Known(w, d) || d in future {
      var k :| 0 <= k < |Live(w)[i].Mentions()| && Live(w)[i].Mentions()[k] == d;
      RunMentions(w0, w, tr, i, k);
      assert Live(w0)[i].Mentions()[k] in Live(w0)[i].Mentions();
    }
  }

  lemma {:induction false} RunKeepsTidy(w0: Work, rounds: nat, w: Work, future: set<Ref>)
    requires StartOk(w0) && Tidy(w0, future) && RunRounds(w0, rounds) == Done(w)
    ensures Tidy(w, future)
  {
    var tr := RunFinishes(w0, rounds, w);
    RunKeepsNewest(w0, rounds, w);
    KnownGrows(w0, w);
    forall f | f in future ensures NewId(w, f.Logical()) { NewIdStays(w0, w, tr, f.Logical()); }
    forall m | m in Live(w) && m.Status() == Pending ensures MentionsListed(w, future, m) {
      var i :| 0 <= i < |Live(w)| && Live(w)[i] == m;
      LogicalKept(w0, w, tr, i);
      assert Live(w0)[i] in Live(w0);
      RunKeepsListed(w0, w, tr, future, i);
    }
  }

  /** The order holds again when the run is done. */
  lemma {:induction false} RunKeepsOrder(w0: Work, rounds: nat, w: Work, rank: LogicalId -> nat)
    requires StartOk(w0) && StartOrdered(w0, rank) && IsLive(w0, w0.queue[0].target) && RunRounds(w0, rounds) == Done(w)
    ensures WorkOk(w) && Ordered(w, rank)
  {
    FinishedRunIsFaithful(w0, rounds, w);
    DeadStays(w0, rounds, w);
    forall m | m in Live(w) && m.Status() == Pending ensures ItemOrdered(w, rank, m) {
      var i :| 0 <= i < |Live(w)| && Live(w)[i] == m;
      PendingBefore(w0, w, i);
      forall d | d in m.Mentions() ensures Below(w, rank, d, m.AsRef().Logical()) {
        var k :| 0 <= k < |m.Mentions()| && m.Mentions()[k] == d;
        MentionStaysBelow(w0, w, rank, i, k);
      }
    }
  }

  lemma {:induction false} PendingBefore(w0: Work, w: Work, i: nat)
    requires StartOk(w0) && WorkOk(w) && OnlyRevisionsMoved(w0, w) && i < |Live(w)| && Live(w)[i].Status() == Pending
    ensures Live(w0)[i].Status() == Pending && |Live(w)[i].Mentions()| == |Live(w0)[i].Mentions()|
  {
    assert RevisionsMoved(w0, Live(w0)[i], Live(w)[i]);
  }

  lemma {:induction false} MentionStaysBelow(w0: Work, w: Work, rank: LogicalId -> nat, i: nat, k: nat)
    requires StartOk(w0) && StartOrdered(w0, rank) && IsLive(w0, w0.queue[0].target) && WorkOk(w)
    requires OnlyRevisionsMoved(w0, w) && OthersStay(w0, w) && forall ref :: Dead(w0, ref) ==> Dead(w, ref)
    requires i < |Live(w)| && Live(w0)[i].Status() == Pending && k < |Live(w0)[i].Mentions()| && k < |Live(w)[i].Mentions()|
    ensures Below(w, rank, Live(w)[i].Mentions()[k], Live(w)[i].AsRef().Logical())
  {
    var m0, d0 := Live(w0)[i], Live(w0)[i].Mentions()[k];
    var d1 := Substitute(w0.queue[0], d0);
    assert RevisionsMoved(w0, m0, Live(w)[i]);
    assert m0 in Live(w0) && d0 in m0.Mentions();
    assert Below(w0, rank, d1, m0.AsRef().Logical());
    if Dead(w0, d1) {
      assert d1 == d0;
      assert MentionStays(w0, w, i, k);
    }
  }
}
