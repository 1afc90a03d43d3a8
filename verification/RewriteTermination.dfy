/** The worklist finishes exactly when no chain of pending dependents of the superseded revision comes back
    to an item it already visited. The source runs it before it looks for cycles, so this is the condition
    a caller has to check. */
module RewriteTermination {
  import opened Core
  import opened Items
  import opened Rewrite
  import opened RewritePass
  import opened RewriteRound
  import opened RewriteLog
  import opened RewriteRun
  import opened RewriteTheorems

  ghost predicate NoRepeat(path: seq<nat>) {
    forall a, b :: 0 <= a < b < |path| ==> path[a] != path[b]
  }

  /** No dependents-walk visits an item twice. */
  ghost predicate NoWalkRevisits(w0: Work)
    requires StartOk(w0)
  {
    forall path :: IsWalk(w0, path) ==> NoRepeat(path)
  }

  function Power(base: nat, exponent: nat): (r: nat)
    ensures base > 0 ==> r > 0
  {
    if exponent == 0 then 1 else base * Power(base, exponent - 1)
  }

  /** How many rounds an entry at this depth may still cause among `n` items. */
  function Weight(n: nat, depth: nat): nat {
    if depth <= n then Power(n + 1, n + 1 - depth) else 0
  }

  function TotalWeight(n: nat, walks: seq<seq<nat>>): nat {
    if walks == [] then 0 else Weight(n, |walks[0]|) + TotalWeight(n, walks[1..])
  }

  lemma {:induction false} TotalWeightConcat(n: nat, a: seq<seq<nat>>, b: seq<seq<nat>>)
    ensures TotalWeight(n, a + b) == TotalWeight(n, a) + TotalWeight(n, b)
    decreases |a|
  {
    if a == [] {
      assert a + b == b;
    } else {
      assert (a + b)[1..] == a[1..] + b;
      TotalWeightConcat(n, a[1..], b);
    }
  }

  lemma {:induction false} TotalWeightUniform(n: nat, walks: seq<seq<nat>>, depth: nat)
    requires forall q :: 0 <= q < |walks| ==> |walks[q]| == depth
    ensures TotalWeight(n, walks) == |walks| * Weight(n, depth)
    decreases |walks|
  {
    if walks != [] { TotalWeightUniform(n, walks[1..], depth); }
  }

  /** Replacing one entry by at most `n` entries one step deeper loses weight. */
  lemma {:induction false} DeeperIsLighter(n: nat, depth: nat, count: nat)
    requires depth <= n && count <= n && (depth == n ==> count == 0)
    ensures count * Weight(n, depth + 1) + 1 <= Weight(n, depth)
  {
    if depth < n {
      var below := Power(n + 1, n - depth);
      assert Weight(n, depth + 1) == below && Weight(n, depth) == (n + 1) * below;
      assert count * below <= n * below;
    }
  }

  /** The queued entries together may still cause at most `budget` rounds. */
  ghost predicate Within(w0: Work, w: Work, budget: nat) {
    exists tr :: RunSoFar(w0, w, tr) && TotalWeight(|Live(w0)|, tr.walks[tr.popped..]) <= budget
  }

  lemma {:induction false} WalkIsShort(w0: Work, path: seq<nat>)
    requires StartOk(w0) && NoWalkRevisits(w0) && IsWalk(w0, path)
    ensures |path| <= |Live(w0)|
  {
    DistinctIndexes(path, |Live(w0)|);
  }

  lemma {:induction false} DepthBounded(w0: Work, tr: Trace, q: nat)
    requires StartOk(w0) && WalksLead(w0, tr) && NoWalkRevisits(w0) && q < |tr.walks|
    ensures |tr.walks[q]| <= |Live(w0)|
  {
    if q > 0 { WalkIsShort(w0, tr.walks[q]); }
  }

  lemma {:induction false} RoundSpends(w0: Work, w: Work, w': Work, budget: nat)
    requires StartOk(w0) && NoWalkRevisits(w0) && Within(w0, w, budget) && Follows(w, w')
    ensures budget > 0 && Within(w0, w', budget - 1)
  {
    var tr :| RunSoFar(w0, w, tr) && TotalWeight(|Live(w0)|, tr.walks[tr.popped..]) <= budget;
    var tr' := RunContinues(w0, w, tr, w');
    EntrySpends(w0, tr, tr');
  }

  lemma {:induction false} EntrySpends(w0: Work, tr: Trace, tr': Trace)
    requires StartOk(w0) && NoWalkRevisits(w0) && WalksLead(w0, tr) && WalksLead(w0, tr')
    requires tr.popped < |tr.walks| && tr'.popped == tr.popped + 1 && tr.walks <= tr'.walks
    requires |tr'.walks| - |tr.walks| <= |Live(w0)|
    requires forall q :: |tr.walks| <= q < |tr'.walks| ==> |tr'.walks[q]| == |tr.walks[tr.popped]| + 1
    ensures TotalWeight(|Live(w0)|, tr'.walks[tr'.popped..]) + 1 <= TotalWeight(|Live(w0)|, tr.walks[tr.popped..])
  {
    DepthBounded(w0, tr, tr.popped);
    if |tr'.walks| > |tr.walks| { DepthBounded(w0, tr', |tr.walks|); }
    WeightDrops(|Live(w0)|, tr.walks, tr.popped, tr'.walks, |tr.walks[tr.popped]|);
  }

  lemma {:induction false} WeightDrops(n: nat, walks: seq<seq<nat>>, popped: nat, walks': seq<seq<nat>>, depth: nat)
    requires popped < |walks| && walks <= walks' && |walks'| - |walks| <= n && |walks[popped]| == depth <= n
    requires forall q :: |walks| <= q < |walks'| ==> |walks'[q]| == depth + 1
    requires |walks'| > |walks| ==> depth + 1 <= n
    ensures TotalWeight(n, walks'[popped + 1..]) + 1 <= TotalWeight(n, walks[popped..])
  {
    var more := walks'[|walks|..];
    assert walks'[popped + 1..] == walks[popped + 1..] + more;
    TotalWeightConcat(n, walks[popped + 1..], more);
    assert walks[popped..] == [walks[popped]] + walks[popped + 1..];
    assert walks[popped..][1..] == walks[popped + 1..];
    TotalWeightUniform(n, more, depth + 1);
    DeeperIsLighter(n, depth, |more|);
  }

  /** If no chain of dependents revisits an item, the loop leaves. */
  lemma {:induction false} NoRevisitTerminates(w0: Work)
    requires StartOk(w0) && NoWalkRevisits(w0)
    ensures Terminates(w0)
  {
    var n := |Live(w0)|;
    RunStarts(w0);
    var budget := TotalWeight(n, [[]]);
    var tr := Trace(w0.queue, 0, [[]]);
    assert tr.walks[tr.popped..] == [[]];
    assert Within(w0, w0, budget);
    forall a, b, k: nat | Within(w0, a, k) && Follows(a, b)
      ensures k > 0 && Within(w0, b, k - 1)
    {
      RoundSpends(w0, a, b, k);
    }
    BudgetSuffices((w: Work, k: nat) => Within(w0, w, k), w0, budget);
  }

  // ---------------------------------------------------------------- the other direction

  /** In a finished run, the item of the last step of a walk is revised later than the item before it: some
      entry revises it after every entry that revises its predecessor. */
  lemma {:induction false} DependentRevisedLater(w0: Work, w: Work, tr: Trace, i: nat, j: nat, p: nat) returns (q: nat)
    requires RunSoFar(w0, w, tr) && tr.popped == |tr.log| && 1 <= p
    requires j < |Live(w0)| && DependsOn(w0, i, Live(w0)[j].AsRef()) && Revises(w0, tr.log, p, j)
    ensures p < q && Revises(w0, tr.log, q, i)
  {
    var log, mentions := tr.log, Live(w0)[i].Mentions();
    var d :| 0 <= d < |mentions| && ReplaceRef(mentions, w0.queue[0])[d] == Live(w0)[j].AsRef();
    LiveRefs(w0);
    assert RefsOf(Live(w0))[j] == Live(w0)[j].AsRef();
    ChaseFirst(log, p, mentions[d]);
    ChaseFirst(log, p, Live(w0)[j].AsRef());
    assert ChaseAll(log[..p], mentions)[d] == log[p].source;
    assert Served(w0, log, p, i);
    q :| p < q && Revises(w0, log, q, i);
  }

  lemma {:induction false} WalkStartRevised(w0: Work, w: Work, tr: Trace, path: seq<nat>) returns (q: nat)
    requires RunSoFar(w0, w, tr) && tr.popped == |tr.log| && IsWalk(w0, path)
    ensures 1 <= q && Revises(w0, tr.log, q, path[0])
  {
    var mentions := Live(w0)[path[0]].Mentions();
    assert tr.log[..0] == [];
    var d :| 0 <= d < |mentions| && mentions[d] == w0.queue[0].source;
    assert ChaseAll([], mentions)[d] == tr.log[0].source;
    assert Served(w0, tr.log, 0, path[0]);
    q :| 0 < q && Revises(w0, tr.log, q, path[0]);
  }

  /** The last entry that revises a live item, if any does. */
  ghost function LastRevised(w0: Work, log: seq<Entry>, bound: nat, i: nat): (r: nat)
    requires WorkOk(w0)
    ensures r < bound || r == 0
    ensures forall q :: r < q < bound ==> !Revises(w0, log, q, i)
    ensures r > 0 ==> Revises(w0, log, r, i)
  {
    if bound <= 1 then 0
    else if Revises(w0, log, bound - 1, i) then bound - 1
    else LastRevised(w0, log, bound - 1, i)
  }

  lemma {:induction false} LastGrowsAlongWalk(w0: Work, w: Work, tr: Trace, path: seq<nat>, k: nat)
    requires RunSoFar(w0, w, tr) && tr.popped == |tr.log| && IsWalk(w0, path) && k < |path|
    ensures LastRevised(w0, tr.log, |tr.log|, path[k]) > 0
    ensures forall a :: 0 <= a < k ==> LastRevised(w0, tr.log, |tr.log|, path[a]) < LastRevised(w0, tr.log, |tr.log|, path[k])
    decreases k
  {
    if k == 0 {
      var q := WalkStartRevised(w0, w, tr, path);
    } else {
      LastGrowsAlongWalk(w0, w, tr, path, k - 1);
      var p := LastRevised(w0, tr.log, |tr.log|, path[k - 1]);
      var q := DependentRevisedLater(w0, w, tr, path[k], path[k - 1], p);
    }
  }

  /** If the loop finishes without raising, no chain of dependents revisits an item. */
  lemma {:induction false} FinishedMeansNoRevisit(w0: Work, rounds: nat)
    requires StartOk(w0) && RunRounds(w0, rounds).Done?
    ensures NoWalkRevisits(w0)
  {
    var w := RunRounds(w0, rounds).work;
    var tr := RunFinishes(w0, rounds, w);
    forall path, a, b | IsWalk(w0, path) && 0 <= a < b < |path|
      ensures path[a] != path[b]
    {
      LastGrowsAlongWalk(w0, w, tr, path, b);
    }
  }
}
