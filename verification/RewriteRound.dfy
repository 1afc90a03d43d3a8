/** One round of the worklist on the whole live graph: every live item that mentions the popped source
    is replaced by its next revision, nothing else changes, and each replacement is queued once. */
module RewriteRound {
  import opened Core
  import opened Items
  import opened Rewrite
  import opened RewritePass

  /** What graph validation guarantees of the lists the worklist is given. */
  ghost predicate WorkOk(w: Work) {
    LaneOk(TaskLane(w)) && LaneOk(GroupLane(w)) && ChildrenAreTasks(w.groups)
  }

  ghost function LaneLive(l: Lane): (r: seq<Item>)
    requires LaneOk(l)
  {
    seq(|l.active|, i requires 0 <= i < |l.active| => At(l, i))
  }

  /** The active items in active order, Tasks first: the nodes of the dependency graph. */
  ghost function Live(w: Work): (r: seq<Item>)
    requires WorkOk(w)
  {
    LaneLive(TaskLane(w)) + LaneLive(GroupLane(w))
  }

  /** Some revision with this reference was ever listed, active or not. */
  ghost predicate Known(w: Work, ref: Ref) {
    HasRef(TaskItems(w.tasks), ref) || HasRef(GroupItems(w.groups), ref)
  }

  lemma {:induction false} LiveRefs(w: Work)
    requires WorkOk(w)
    ensures RefsOf(Live(w)) == w.activeTasks + w.activeGroups
    ensures forall i :: 0 <= i < |Live(w)| ==> Known(w, Live(w)[i].AsRef())
  {
    forall i | 0 <= i < |Live(w)|
      ensures Live(w)[i].AsRef() == (w.activeTasks + w.activeGroups)[i]
    {
      var n := |w.activeTasks|;
      if i < n { assert Live(w)[i] == At(TaskLane(w), i); } else { assert Live(w)[i] == At(GroupLane(w), i - n); }
    }
  }

  lemma {:induction false} KindOfLane(w: Work, ref: Ref)
    ensures HasRef(TaskItems(w.tasks), ref) ==> ref.kind == TaskKind
    ensures HasRef(GroupItems(w.groups), ref) ==> ref.kind == GroupKind
  {
  }

  lemma {:induction false} LoopEffect(l: Lane, e: Entry, l': Lane, news: seq<Entry>)
    requires LaneOk(l) && Pass(l.items, Elements(l.active), l, e, l', news)
    ensures LaneOk(l') && Appended(l, l', news) && |l'.active| == |l.active|
    ensures forall i: nat :: i < |l.active| ==> At(l', i) == if Wants(At(l, i), e) then Revised(At(l, i), e) else At(l, i)
    ensures Supersedes(news, l.active, l'.active, (i: nat) => i < |l.active| && Wants(At(l, i), e))
  {
    PassEffect(l.items, Elements(l.active), l, e, l', news);
    forall i: nat
      ensures HitAt(l, l.items, e, i) <==> i < |l.active| && Wants(At(l, i), e)
    {
    }
    SupersedesSameHits(news, l.active, l'.active, (i: nat) => HitAt(l, l.items, e, i), (i: nat) => i < |l.active| && Wants(At(l, i), e));
  }

  lemma {:induction false} SupersedesSameHits(news: seq<Entry>, before: seq<Ref>, after: seq<Ref>, hit: nat -> bool, hit': nat -> bool)
    requires |before| == |after| && Supersedes(news, before, after, hit)
    requires forall i: nat :: hit(i) <==> hit'(i)
    ensures Supersedes(news, before, after, hit')
  {
    forall n | n in news
      ensures exists i: nat :: i < |before| && hit'(i) && n == Entry(before[i], after[i])
    {
      var i: nat :| i < |before| && hit(i) && n == Entry(before[i], after[i]);
    }
  }

  /** The live graph after a round. */
  ghost predicate RoundMoves(w: Work, e: Entry, w': Work)
    requires WorkOk(w) && WorkOk(w')
  {
    && |Live(w')| == |Live(w)|
    && forall i :: 0 <= i < |Live(w)| ==>
         Live(w')[i] == if Wants(Live(w)[i], e) then Revised(Live(w)[i], e) else Live(w)[i]
  }

  /** The queue and the listed revisions after a round. */
  ghost predicate RoundQueues(w: Work, e: Entry, w': Work, news: seq<Entry>)
    requires WorkOk(w) && WorkOk(w')
  {
    && |Live(w')| == |Live(w)|
    && w.queue != [] && w'.queue == w.queue[1..] + news
    && w.tasks <= w'.tasks && w.groups <= w'.groups
    && Supersedes(news, RefsOf(Live(w)), RefsOf(Live(w')), (i: nat) => i < |Live(w)| && Wants(Live(w)[i], e))
    && (forall n :: n in news ==> !Known(w, n.target) && n.source.Logical() == n.target.Logical())
    && (forall ref :: Known(w', ref) ==> Known(w, ref) || exists n :: n in news && n.target == ref)
  }

  lemma {:induction false} RoundIsTwoPasses(w: Work, w': Work) returns (a: seq<Entry>, b: seq<Entry>)
    requires ChildrenAreTasks(w.groups) && w.queue != [] && Round(w) == Ok(w')
    ensures Pass(TaskItems(w.tasks), Elements(w.activeTasks), TaskLane(w), w.queue[0], TaskLane(w'), a)
    ensures Pass(GroupItems(w.groups), Elements(w.activeGroups), GroupLane(w), w.queue[0], GroupLane(w'), b)
    ensures w'.queue == w.queue[1..] + (a + b) && ChildrenAreTasks(w'.groups)
  {
    var e := w.queue[0];
    var w1 := w.(queue := w.queue[1..]);
    var w2 := TaskPass(w1.tasks, Elements(w1.activeTasks), w1, e).value;
    a := TaskLoopIsPass(w1.tasks, Elements(w1.activeTasks), w1, e, w2);
    b := GroupLoopIsPass(w2.groups, Elements(w2.activeGroups), w2, e, w');
    assert w'.queue == w.queue[1..] + (a + b);
  }

  lemma {:induction false} RoundEffect(w: Work, w': Work) returns (news: seq<Entry>)
    requires WorkOk(w) && w.queue != [] && Round(w) == Ok(w')
    ensures WorkOk(w') && RoundMoves(w, w.queue[0], w') && RoundQueues(w, w.queue[0], w', news)
  {
    var e := w.queue[0];
    var a, b := RoundIsTwoPasses(w, w');
    LoopEffect(TaskLane(w), e, TaskLane(w'), a);
    LoopEffect(GroupLane(w), e, GroupLane(w'), b);
    news := a + b;
    assert RoundMoves(w, e, w') by { RoundMovesBoth(w, e, w'); }
    assert RoundQueues(w, e, w', news) by { RoundQueuesBoth(w, e, w', a, b); }
  }

  lemma {:induction false} RoundQueuesBoth(w: Work, e: Entry, w': Work, a: seq<Entry>, b: seq<Entry>)
    requires WorkOk(w) && WorkOk(w') && |w'.activeTasks| == |w.activeTasks| && |w'.activeGroups| == |w.activeGroups|
    requires Appended(TaskLane(w), TaskLane(w'), a) && Appended(GroupLane(w), GroupLane(w'), b)
    requires Supersedes(a, w.activeTasks, w'.activeTasks, (i: nat) => i < |w.activeTasks| && Wants(At(TaskLane(w), i), e))
    requires Supersedes(b, w.activeGroups, w'.activeGroups, (i: nat) => i < |w.activeGroups| && Wants(At(GroupLane(w), i), e))
    requires w.queue != [] && w'.queue == w.queue[1..] + (a + b)
    ensures RoundQueues(w, e, w', a + b)
  {
    PrefixOfItems(w, w');
    RoundSupersedesBoth(w, e, w', a, b);
    forall n | n in a ensures HasRef(TaskItems(w'.tasks), n.target) { TargetListed(TaskLane(w), e, TaskLane(w'), a, n); }
    forall n | n in b ensures HasRef(GroupItems(w'.groups), n.target) { TargetListed(GroupLane(w), e, GroupLane(w'), b, n); }
    RoundKnown(w, w', a, b);
  }

  lemma {:induction false} PrefixOfItems(w: Work, w': Work)
    requires TaskItems(w.tasks) <= TaskItems(w'.tasks) && GroupItems(w.groups) <= GroupItems(w'.groups)
    ensures w.tasks <= w'.tasks && w.groups <= w'.groups
  {
    forall i | 0 <= i < |w.tasks| ensures w'.tasks[i] == w.tasks[i] {
      assert TaskItems(w'.tasks)[i] == TaskItems(w.tasks)[i];
    }
    forall i | 0 <= i < |w.groups| ensures w'.groups[i] == w.groups[i] {
      assert GroupItems(w'.groups)[i] == GroupItems(w.groups)[i];
    }
  }

  lemma {:induction false} RoundMovesBoth(w: Work, e: Entry, w': Work)
    requires WorkOk(w) && WorkOk(w') && |w'.activeTasks| == |w.activeTasks| && |w'.activeGroups| == |w.activeGroups|
    requires forall i: nat :: i < |w.activeTasks| ==>
      At(TaskLane(w'), i) == if Wants(At(TaskLane(w), i), e) then Revised(At(TaskLane(w), i), e) else At(TaskLane(w), i)
    requires forall i: nat :: i < |w.activeGroups| ==>
      At(GroupLane(w'), i) == if Wants(At(GroupLane(w), i), e) then Revised(At(GroupLane(w), i), e) else At(GroupLane(w), i)
    ensures RoundMoves(w, e, w')
  {
    var n := |w.activeTasks|;
    forall i | 0 <= i < |Live(w)|
      ensures Live(w')[i] == if Wants(Live(w)[i], e) then Revised(Live(w)[i], e) else Live(w)[i]
    {
      if i < n { assert Live(w)[i] == At(TaskLane(w), i); } else { assert Live(w)[i] == At(GroupLane(w), i - n); }
    }
  }

  lemma {:induction false} RoundSupersedesBoth(w: Work, e: Entry, w': Work, a: seq<Entry>, b: seq<Entry>)
    requires WorkOk(w) && WorkOk(w') && |w'.activeTasks| == |w.activeTasks| && |w'.activeGroups| == |w.activeGroups|
    requires Supersedes(a, w.activeTasks, w'.activeTasks, (i: nat) => i < |w.activeTasks| && Wants(At(TaskLane(w), i), e))
    requires Supersedes(b, w.activeGroups, w'.activeGroups, (i: nat) => i < |w.activeGroups| && Wants(At(GroupLane(w), i), e))
    ensures |Live(w')| == |Live(w)|
    ensures Supersedes(a + b, RefsOf(Live(w)), RefsOf(Live(w')), (i: nat) => i < |Live(w)| && Wants(Live(w)[i], e))
  {
    LiveRefs(w);
    LiveRefs(w');
    var hitTask := (i: nat) => i < |w.activeTasks| && Wants(At(TaskLane(w), i), e);
    var hitGroup := (i: nat) => i < |w.activeGroups| && Wants(At(GroupLane(w), i), e);
    var hit := (i: nat) => i < |Live(w)| && Wants(Live(w)[i], e);
    forall i: nat | i < |Live(w)|
      ensures hit(i) <==> if i < |w.activeTasks| then hitTask(i) else hitGroup(i - |w.activeTasks|)
    {
      if i < |w.activeTasks| { assert Live(w)[i] == At(TaskLane(w), i); } else { assert Live(w)[i] == At(GroupLane(w), i - |w.activeTasks|); }
    }
    KindsApart(w, w', a, b, hitTask, hitGroup);
    SupersedesBoth(a, b, w.activeTasks, w'.activeTasks, w.activeGroups, w'.activeGroups, hitTask, hitGroup, hit);
  }

  lemma {:induction false} KindsApart(w: Work, w': Work, a: seq<Entry>, b: seq<Entry>, hitTask: nat -> bool, hitGroup: nat -> bool)
    requires WorkOk(w) && WorkOk(w') && |w'.activeTasks| == |w.activeTasks| && |w'.activeGroups| == |w.activeGroups|
    requires Supersedes(a, w.activeTasks, w'.activeTasks, hitTask) && Supersedes(b, w.activeGroups, w'.activeGroups, hitGroup)
    ensures forall n, m :: n in a && m in b ==> n.source != m.source && n.target != m.target
  {
    forall n, m | n in a && m in b ensures n.source != m.source && n.target != m.target {
      var i: nat :| i < |w.activeTasks| && n == Entry(w.activeTasks[i], w'.activeTasks[i]);
      var j: nat :| j < |w.activeGroups| && m == Entry(w.activeGroups[j], w'.activeGroups[j]);
      KindOfLane(w, w.activeTasks[i]);
      KindOfLane(w', w'.activeTasks[i]);
      KindOfLane(w, w.activeGroups[j]);
      KindOfLane(w', w'.activeGroups[j]);
    }
  }

  /** Two supersessions of disjoint lists make one of their concatenation. */
  lemma {:induction false} SupersedesBoth(a: seq<Entry>, b: seq<Entry>, left: seq<Ref>, left': seq<Ref>, right: seq<Ref>, right': seq<Ref>,
                                          hitLeft: nat -> bool, hitRight: nat -> bool, hit: nat -> bool)
    requires |left| == |left'| && |right| == |right'|
    requires Supersedes(a, left, left', hitLeft) && Supersedes(b, right, right', hitRight)
    requires forall i: nat :: i < |left| + |right| ==> (hit(i) <==> if i < |left| then hitLeft(i) else hitRight(i - |left|))
    requires forall n, m :: n in a && m in b ==> n.source != m.source && n.target != m.target
    ensures Supersedes(a + b, left + right, left' + right', hit)
  {
    ShiftSuperseded(a, b, left, left', right, right', hitLeft, hitRight, hit);
    forall i: nat | i < |left + right| && hit(i) ensures Entry((left + right)[i], (left' + right')[i]) in a + b {
      if i < |left| { assert Entry(left[i], left'[i]) in a; } else { assert Entry(right[i - |left|], right'[i - |left|]) in b; }
    }
    assert EntriesApart(a + b) by { ConcatApart(a, b); }
  }

  lemma {:induction false} ShiftSuperseded(a: seq<Entry>, b: seq<Entry>, left: seq<Ref>, left': seq<Ref>, right: seq<Ref>, right': seq<Ref>,
                                           hitLeft: nat -> bool, hitRight: nat -> bool, hit: nat -> bool)
    requires |left| == |left'| && |right| == |right'|
    requires forall n :: n in a ==> exists i: nat :: i < |left| && hitLeft(i) && n == Entry(left[i], left'[i])
    requires forall n :: n in b ==> exists i: nat :: i < |right| && hitRight(i) && n == Entry(right[i], right'[i])
    requires forall i: nat :: i < |left| + |right| ==> (hit(i) <==> if i < |left| then hitLeft(i) else hitRight(i - |left|))
    ensures forall n :: n in a + b ==> exists i: nat :: i < |left + right| && hit(i) && n == Entry((left + right)[i], (left' + right')[i])
  {
    var before, after, k := left + right, left' + right', |left|;
    forall n | n in a + b ensures exists i: nat :: i < |before| && hit(i) && n == Entry(before[i], after[i]) {
      if n in a {
        var i: nat :| i < k && hitLeft(i) && n == Entry(left[i], left'[i]);
        assert hit(i) && n == Entry(before[i], after[i]);
      } else {
        var i: nat :| i < |right| && hitRight(i) && n == Entry(right[i], right'[i]);
        assert hit(k + i) && n == Entry(before[k + i], after[k + i]);
      }
    }
  }

  lemma {:induction false} ConcatApart(a: seq<Entry>, b: seq<Entry>)
    requires EntriesApart(a) && EntriesApart(b)
    requires forall n, m :: n in a && m in b ==> n.source != m.source && n.target != m.target
    ensures EntriesApart(a + b)
  {
    forall i, j | 0 <= i < j < |a + b| ensures (a + b)[i].source != (a + b)[j].source && (a + b)[i].target != (a + b)[j].target {
      if i < |a| <= j { assert a[i] in a && b[j - |a|] in b; }
    }
  }

  lemma {:induction false} RoundKnown(w: Work, w': Work, a: seq<Entry>, b: seq<Entry>)
    requires Appended(TaskLane(w), TaskLane(w'), a) && Appended(GroupLane(w), GroupLane(w'), b)
    requires forall n :: n in a ==> HasRef(TaskItems(w'.tasks), n.target)
    requires forall n :: n in b ==> HasRef(GroupItems(w'.groups), n.target)
    ensures forall n :: n in a + b ==> !Known(w, n.target) && n.source.Logical() == n.target.Logical()
    ensures forall ref :: Known(w', ref) ==> Known(w, ref) || exists n :: n in a + b && n.target == ref
  {
    forall n | n in a + b
      ensures !Known(w, n.target)
    {
      KindOfLane(w', n.target);
      KindOfLane(w, n.target);
    }
    forall ref | Known(w', ref) && !Known(w, ref)
      ensures exists n :: n in a + b && n.target == ref
    {
      if HasRef(TaskItems(w'.tasks), ref) {
        var m := Lookup(TaskItems(w'.tasks), ref);
        if m in TaskItems(w.tasks) { ListedHasRef(TaskItems(w.tasks), m); }
        var n :| n in a && n.target == ref;
        assert n in a + b;
      } else {
        var m := Lookup(GroupItems(w'.groups), ref);
        if m in GroupItems(w.groups) { ListedHasRef(GroupItems(w.groups), m); }
        var n :| n in b && n.target == ref;
        assert n in a + b;
      }
    }
  }

  lemma {:induction false} ListedHasRef(items: seq<Item>, m: Item)
    requires m in items
    ensures HasRef(items, m.AsRef())
  {
    var i :| 0 <= i < |items| && items[i] == m;
    assert items[i].AsRef() == m.AsRef();
  }

  lemma {:induction false} TargetListed(l: Lane, e: Entry, l': Lane, news: seq<Entry>, n: Entry)
    requires LaneOk(l) && LaneOk(l') && |l'.active| == |l.active| && n in news
    requires Supersedes(news, l.active, l'.active, (i: nat) => i < |l.active| && Wants(At(l, i), e))
    ensures HasRef(l'.items, n.target)
  {
    var i: nat :| i < |l.active| && n == Entry(l.active[i], l'.active[i]);
  }
}
