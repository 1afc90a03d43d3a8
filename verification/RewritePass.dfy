/** What one round of the worklist does to the live items, stated without its loops. The Task loop and
    the Group loop do the same thing to their half of the graph, so they are studied once, on lanes. */
module RewritePass {
  import opened Core
  import opened Items
  import opened Rewrite

  ghost predicate Wants(m: Item, e: Entry) {
    m.Status() == Pending && e.source in m.Mentions()
  }

  ghost function Revised(m: Item, e: Entry): (r: Item)
    ensures r.AsRef().Logical() == m.AsRef().Logical() && r.AsRef().revision == m.AsRef().revision + 1
    ensures r.Status() == m.Status()
  {
    match m
    case TaskItem(t) => TaskItem(RevisedTask(t, e))
    case GroupItem(g) => GroupItem(RevisedGroup(g, e))
  }

  /** What graph validation guarantees of a lane. */
  ghost predicate LaneOk(l: Lane) {
    && UniqueRefs(l.items)
    && forall i :: 0 <= i < |l.active| ==> HasRef(l.items, l.active[i])
  }

  ghost function At(l: Lane, i: nat): (m: Item)
    requires LaneOk(l) && i < |l.active|
    ensures m in l.items && m.AsRef() == l.active[i]
  {
    Lookup(l.items, l.active[i])
  }

  /** One iteration that revises item `m`. */
  ghost predicate Step(m: Item, l: Lane, e: Entry, l1: Lane) {
    var r := Revised(m, e);
    && LaneOk(l) && m in l.items && Wants(m, e) && !HasRef(l.items, r.AsRef())
    && l1 == Lane(l.items + [r], ReplaceRef(l.active, Entry(m.AsRef(), r.AsRef())))
  }

  /** The iterations of one loop over `todo`, in order; `news` are the entries they queue. */
  ghost predicate Pass(todo: seq<Item>, live: set<Ref>, l: Lane, e: Entry, l': Lane, news: seq<Entry>)
    decreases |todo|
  {
    if todo == [] then l' == l && news == []
    else
      var m, r := todo[0], Revised(todo[0], e);
      if m.AsRef() in live && Wants(m, e) then
        && !HasRef(l.items, r.AsRef())
        && news != [] && news[0] == Entry(m.AsRef(), r.AsRef())
        && Pass(todo[1..], live, Lane(l.items + [r], ReplaceRef(l.active, Entry(m.AsRef(), r.AsRef()))), e, l', news[1..])
      else Pass(todo[1..], live, l, e, l', news)
  }

  ghost predicate HitAt(l: Lane, todo: seq<Item>, e: Entry, i: nat)
    requires LaneOk(l)
  {
    i < |l.active| && At(l, i) in todo && Wants(At(l, i), e)
  }

  ghost predicate Moved(l: Lane, todo: seq<Item>, e: Entry, l': Lane)
    requires LaneOk(l) && LaneOk(l')
  {
    && |l'.active| == |l.active|
    && forall i: nat :: i < |l.active| ==> At(l', i) == if HitAt(l, todo, e, i) then Revised(At(l, i), e) else At(l, i)
  }

  ghost predicate Appended(l: Lane, l': Lane, news: seq<Entry>) {
    && l.items <= l'.items
    && (forall n :: n in news ==> !HasRef(l.items, n.target) && n.source.Logical() == n.target.Logical())
    && (forall m :: m in l'.items ==> m in l.items || exists n :: n in news && n.target == m.AsRef())
  }

  /** New queue entries: one per revised item, from its old to its new reference. */
  ghost predicate Supersedes(news: seq<Entry>, before: seq<Ref>, after: seq<Ref>, hit: nat -> bool)
    requires |before| == |after|
  {
    && (forall n :: n in news ==> exists i: nat :: i < |before| && hit(i) && n == Entry(before[i], after[i]))
    && (forall i: nat :: i < |before| && hit(i) ==> Entry(before[i], after[i]) in news)
    && EntriesApart(news)
  }

  ghost predicate EntriesApart(news: seq<Entry>) {
    forall a, b :: 0 <= a < b < |news| ==> news[a].source != news[b].source && news[a].target != news[b].target
  }

  lemma {:induction false} PassEffect(todo: seq<Item>, live: set<Ref>, l: Lane, e: Entry, l': Lane, news: seq<Entry>)
    requires LaneOk(l) && Pass(todo, live, l, e, l', news)
    requires UniqueRefs(todo) && forall m :: m in todo ==> m in l.items
    requires forall m :: m in todo ==> (m.AsRef() in live <==> m.AsRef() in l.active)
    ensures LaneOk(l') && Moved(l, todo, e, l') && Appended(l, l', news)
    ensures Supersedes(news, l.active, l'.active, (i: nat) => HitAt(l, todo, e, i))
    decreases |todo|
  {
    if todo == [] {
    } else {
      var m, r := todo[0], Revised(todo[0], e);
      if m.AsRef() in live && Wants(m, e) {
        var l1 := Lane(l.items + [r], ReplaceRef(l.active, Entry(m.AsRef(), r.AsRef())));
        StepEffect(m, l, e, l1);
        TodoStays(todo, live, l, e, l1);
        PassEffect(todo[1..], live, l1, e, l', news[1..]);
        PassHit(todo, l, e, l1, l', news);
      } else {
        PassEffect(todo[1..], live, l, e, l', news);
        PassSkipped(todo, live, l, e, l', news);
      }
    }
  }

  lemma {:induction false} PassHit(todo: seq<Item>, l: Lane, e: Entry, l1: Lane, l': Lane, news: seq<Entry>)
    requires todo != [] && Step(todo[0], l, e, l1) && UniqueRefs(todo) && forall m :: m in todo ==> m in l.items
    requires todo[0].AsRef() in l.active
    requires news != [] && news[0] == Entry(todo[0].AsRef(), Revised(todo[0], e).AsRef())
    requires LaneOk(l1) && LaneOk(l') && Moved(l1, todo[1..], e, l') && Appended(l1, l', news[1..])
    requires Supersedes(news[1..], l1.active, l'.active, (i: nat) => HitAt(l1, todo[1..], e, i))
    ensures Moved(l, todo, e, l') && Appended(l, l', news)
    ensures Supersedes(news, l.active, l'.active, (i: nat) => HitAt(l, todo, e, i))
  {
    var first, rest := news[0], news[1..];
    assert news == [first] + rest;
    assert Moved(l, todo, e, l') by { PassMoved(todo, l, e, l1, l'); }
    assert Appended(l, l', news) by { PassAppended(todo[0], l, e, l1, l', rest); }
    assert |l'.active| == |l.active|;
    assert Supersedes(news, l.active, l'.active, (i: nat) => HitAt(l, todo, e, i)) by { PassSupersedes(todo, l, e, l1, l', rest); }
  }

  lemma {:induction false} PassSkipped(todo: seq<Item>, live: set<Ref>, l: Lane, e: Entry, l': Lane, news: seq<Entry>)
    requires LaneOk(l) && todo != [] && !(todo[0].AsRef() in live && Wants(todo[0], e))
    requires todo[0].AsRef() in live <==> todo[0].AsRef() in l.active
    requires LaneOk(l') && Moved(l, todo[1..], e, l')
    requires Supersedes(news, l.active, l'.active, (i: nat) => HitAt(l, todo[1..], e, i))
    ensures Moved(l, todo, e, l')
    ensures Supersedes(news, l.active, l'.active, (i: nat) => HitAt(l, todo, e, i))
  {
    Skipped(todo, live, l, e);
    forall i: nat | i < |l.active|
      ensures At(l', i) == if HitAt(l, todo, e, i) then Revised(At(l, i), e) else At(l, i)
    {
      assert HitAt(l, todo, e, i) <==> HitAt(l, todo[1..], e, i);
    }
  }

  lemma {:induction false} StepEffect(m: Item, l: Lane, e: Entry, l1: Lane)
    requires Step(m, l, e, l1)
    ensures LaneOk(l1)
    ensures forall i: nat :: i < |l.active| ==> At(l1, i) == if l.active[i] == m.AsRef() then Revised(m, e) else At(l, i)
  {
    var r := Revised(m, e);
    forall i: nat | i < |l.active|
      ensures HasRef(l1.items, l1.active[i])
      ensures Lookup(l1.items, l1.active[i]) == if l.active[i] == m.AsRef() then r else At(l, i)
    {
      var s := if l.active[i] == m.AsRef() then r else At(l, i);
      assert s in l1.items;
      LookupUnique(l1.items, s);
    }
  }

  lemma {:induction false} Skipped(todo: seq<Item>, live: set<Ref>, l: Lane, e: Entry)
    requires LaneOk(l) && todo != [] && !(todo[0].AsRef() in live && Wants(todo[0], e))
    requires todo[0].AsRef() in live <==> todo[0].AsRef() in l.active
    ensures forall i: nat :: HitAt(l, todo, e, i) <==> HitAt(l, todo[1..], e, i)
  {
    forall i: nat | HitAt(l, todo, e, i)
      ensures HitAt(l, todo[1..], e, i)
    {
      assert At(l, i).AsRef() == l.active[i];
    }
  }

  lemma {:induction false} TodoStays(todo: seq<Item>, live: set<Ref>, l: Lane, e: Entry, l1: Lane)
    requires todo != [] && Step(todo[0], l, e, l1)
    requires UniqueRefs(todo) && forall m :: m in todo ==> m in l.items
    requires forall m :: m in todo ==> (m.AsRef() in live <==> m.AsRef() in l.active)
    ensures UniqueRefs(todo[1..])
    ensures forall m :: m in todo[1..] ==> m in l1.items && (m.AsRef() in live <==> m.AsRef() in l1.active)
  {
    forall s | s in todo[1..]
      ensures s in l1.items && (s.AsRef() in live <==> s.AsRef() in l1.active)
    {
      assert s in todo && s.AsRef() != todo[0].AsRef();
      if s.AsRef() in l.active {
        var i :| 0 <= i < |l.active| && l.active[i] == s.AsRef();
        assert l1.active[i] == s.AsRef();
      }
    }
  }

  lemma {:induction false} FreshNotListed(items: seq<Item>, todo: seq<Item>, r: Item)
    requires !HasRef(items, r.AsRef()) && forall m :: m in todo ==> m in items
    ensures r !in todo
  {
    forall m | m in todo
      ensures HasRef(items, m.AsRef())
    {
      var i :| 0 <= i < |items| && items[i] == m;
    }
  }

  lemma {:induction false} PassMoved(todo: seq<Item>, l: Lane, e: Entry, l1: Lane, l': Lane)
    requires todo != [] && Step(todo[0], l, e, l1) && UniqueRefs(todo) && forall m :: m in todo ==> m in l.items
    requires LaneOk(l1) && LaneOk(l') && Moved(l1, todo[1..], e, l')
    ensures Moved(l, todo, e, l')
  {
    forall i: nat | i < |l.active|
      ensures At(l', i) == if HitAt(l, todo, e, i) then Revised(At(l, i), e) else At(l, i)
    {
      HitsLeft(todo, l, e, l1, l', i);
    }
  }

  /** After one hit the remaining hits are the old ones, minus the item just revised. */
  lemma {:induction false} HitsLeft(todo: seq<Item>, l: Lane, e: Entry, l1: Lane, l': Lane, i: nat)
    requires todo != [] && Step(todo[0], l, e, l1) && UniqueRefs(todo) && forall m :: m in todo ==> m in l.items
    requires LaneOk(l1) && LaneOk(l') && Moved(l1, todo[1..], e, l') && i < |l.active|
    ensures |l'.active| == |l.active| == |l1.active|
    ensures l.active[i] == todo[0].AsRef() ==>
      HitAt(l, todo, e, i) && !HitAt(l1, todo[1..], e, i) && At(l, i) == todo[0] && At(l1, i) == Revised(todo[0], e)
    ensures l.active[i] != todo[0].AsRef() ==>
      (HitAt(l, todo, e, i) <==> HitAt(l1, todo[1..], e, i)) && At(l1, i) == At(l, i)
  {
    StepEffect(todo[0], l, e, l1);
    LookupUnique(l.items, todo[0]);
    FreshNotListed(l.items, todo, Revised(todo[0], e));
  }

  lemma {:induction false} PassAppended(m: Item, l: Lane, e: Entry, l1: Lane, l': Lane, rest: seq<Entry>)
    requires Step(m, l, e, l1) && Appended(l1, l', rest)
    ensures Appended(l, l', [Entry(m.AsRef(), Revised(m, e).AsRef())] + rest)
  {
    var first := Entry(m.AsRef(), Revised(m, e).AsRef());
    var news := [first] + rest;
    forall n | n in news
      ensures !HasRef(l.items, n.target)
    {
      assert forall k :: 0 <= k < |l.items| ==> l1.items[k] == l.items[k];
    }
    forall s | s in l'.items && s !in l.items
      ensures exists n :: n in news && n.target == s.AsRef()
    {
      if s in l1.items {
        assert first in news && s.AsRef() == first.target;
      } else {
        var n :| n in rest && n.target == s.AsRef();
        assert n in news;
      }
    }
  }

  lemma {:induction false} PassSupersedes(todo: seq<Item>, l: Lane, e: Entry, l1: Lane, l': Lane, rest: seq<Entry>)
    requires todo != [] && Step(todo[0], l, e, l1) && UniqueRefs(todo) && forall m :: m in todo ==> m in l.items
    requires todo[0].AsRef() in l.active
    requires LaneOk(l1) && LaneOk(l') && Moved(l1, todo[1..], e, l') && Appended(l1, l', rest)
    requires Supersedes(rest, l1.active, l'.active, (i: nat) => HitAt(l1, todo[1..], e, i))
    ensures |l'.active| == |l.active|
    ensures Supersedes([Entry(todo[0].AsRef(), Revised(todo[0], e).AsRef())] + rest, l.active, l'.active,
      (i: nat) => HitAt(l, todo, e, i))
  {
    var first := Entry(todo[0].AsRef(), Revised(todo[0], e).AsRef());
    var hit, hit1 := (i: nat) => HitAt(l, todo, e, i), (i: nat) => HitAt(l1, todo[1..], e, i);
    forall i: nat | i < |l.active|
      ensures l.active[i] == first.source ==> hit(i) && !hit1(i) && l'.active[i] == first.target
      ensures l.active[i] != first.source ==> (hit(i) <==> hit1(i)) && l1.active[i] == l.active[i]
    {
      HitsLeft(todo, l, e, l1, l', i);
    }
    assert l1.items[|l.items|].AsRef() == first.target;
    SupersedesOneMore(first, rest, l.active, l1.active, l'.active, hit, hit1);
  }

  lemma {:induction false} SupersedesOneMore(first: Entry, rest: seq<Entry>, before: seq<Ref>, middle: seq<Ref>, after: seq<Ref>,
                          hit: nat -> bool, hit1: nat -> bool)
    requires |before| == |middle| == |after| && first.source in before
    requires Supersedes(rest, middle, after, hit1)
    requires forall i: nat :: i < |before| && before[i] == first.source ==> hit(i) && !hit1(i) && after[i] == first.target
    requires forall i: nat :: i < |before| && before[i] != first.source ==> (hit(i) <==> hit1(i)) && middle[i] == before[i]
    requires forall n :: n in rest ==> n.target != first.target
    ensures Supersedes([first] + rest, before, after, hit)
  {
    var news := [first] + rest;
    forall n | n in news
      ensures exists i: nat :: i < |before| && hit(i) && n == Entry(before[i], after[i])
    {
      if n == first {
        var i: nat :| i < |before| && before[i] == first.source;
        assert hit(i) && n == Entry(before[i], after[i]);
      } else {
        var i: nat :| i < |before| && hit1(i) && n == Entry(middle[i], after[i]);
        assert hit(i) && n == Entry(before[i], after[i]);
      }
    }
    forall i: nat | i < |before| && hit(i)
      ensures Entry(before[i], after[i]) in news
    {
      if before[i] == first.source { assert news[0] == Entry(before[i], after[i]); }
    }
    forall n | n in rest
      ensures n.source != first.source
    {
      var i: nat :| i < |before| && hit1(i) && n == Entry(middle[i], after[i]);
      assert before[i] != first.source;
    }
  }

  // ---------------------------------------------------------------- the two loops as passes

  ghost predicate ChildrenAreTasks(groups: seq<Group>) {
    forall g, c :: g in groups && c in g.children ==> c.task.kind == TaskKind
  }

  ghost function TaskLane(w: Work): Lane { Lane(TaskItems(w.tasks), w.activeTasks) }

  ghost function GroupLane(w: Work): Lane { Lane(GroupItems(w.groups), w.activeGroups) }

  lemma {:induction false} TaskLoopIsPass(todo: seq<Task>, live: set<Ref>, w: Work, e: Entry, w': Work) returns (news: seq<Entry>)
    requires TaskPass(todo, live, w, e) == Ok(w')
    ensures Pass(TaskItems(todo), live, TaskLane(w), e, TaskLane(w'), news)
    ensures w' == w.(tasks := w'.tasks, activeTasks := w'.activeTasks, queue := w.queue + news)
    decreases |todo|
  {
    if todo == [] {
      news := [];
    } else {
      var t := todo[0];
      var w1 := VisitTask(t, live, w, e).value;
      var rest := TaskLoopIsPass(todo[1..], live, w1, e, w');
      assert TaskItems(todo)[1..] == TaskItems(todo[1..]);
      assert TaskItems(todo)[0] == TaskItem(t);
      HasTaskIsHasRef(w.tasks, RevisedTask(t, e).AsRef());
      if TaskHit(t, live, e) {
        var r := RevisedTask(t, e);
        news := [Entry(t.AsRef(), r.AsRef())] + rest;
        assert TaskItems(w1.tasks) == TaskItems(w.tasks) + [TaskItem(r)];
        assert w.queue + news == w1.queue + rest;
      } else {
        news := rest;
      }
    }
  }

  lemma {:induction false} HasTaskIsHasRef(tasks: seq<Task>, ref: Ref)
    ensures HasTask(tasks, ref) <==> HasRef(TaskItems(tasks), ref)
  {
    forall i | 0 <= i < |tasks| ensures TaskItems(tasks)[i].AsRef() == tasks[i].AsRef() {}
  }

  lemma {:induction false} HasGroupIsHasRef(groups: seq<Group>, ref: Ref)
    ensures HasGroup(groups, ref) <==> HasRef(GroupItems(groups), ref)
  {
    forall i | 0 <= i < |groups| ensures GroupItems(groups)[i].AsRef() == groups[i].AsRef() {}
  }

  /** The source tests dependencies and children apart; with Task children it tests the mentions. */
  lemma {:induction false} GroupHitIsWants(g: Group, e: Entry)
    requires forall c :: c in g.children ==> c.task.kind == TaskKind
    ensures Wants(GroupItem(g), e) <==> g.status == Pending && (e.source in g.dependsOn || ChildHit(g, e))
  {
    var refs := ChildRefs(g.children);
    if e.source in refs {
      var i :| 0 <= i < |refs| && refs[i] == e.source;
      assert g.children[i] in g.children && g.children[i].task == e.source;
    }
    if ChildHit(g, e) {
      var i :| 0 <= i < |g.children| && g.children[i].task == e.source;
      assert refs[i] == e.source;
    }
  }

  /** What the loop over these Groups achieves. */
  ghost predicate GroupPassIs(todo: seq<Group>, live: set<Ref>, w: Work, e: Entry, w': Work, news: seq<Entry>) {
    && Pass(GroupItems(todo), live, GroupLane(w), e, GroupLane(w'), news)
    && w' == w.(groups := w'.groups, activeGroups := w'.activeGroups, queue := w.queue + news)
  }

  lemma {:induction false} GroupLoopIsPass(todo: seq<Group>, live: set<Ref>, w: Work, e: Entry, w': Work) returns (news: seq<Entry>)
    requires GroupPass(todo, live, w, e) == Ok(w')
    requires ChildrenAreTasks(todo) && ChildrenAreTasks(w.groups)
    ensures GroupPassIs(todo, live, w, e, w', news) && ChildrenAreTasks(w'.groups)
    decreases |todo|
  {
    if todo == [] {
      news := [];
      assert w.queue + news == w.queue;
    } else {
      var w1 := VisitGroup(todo[0], live, w, e).value;
      assert ChildrenAreTasks([todo[0]]) && ChildrenAreTasks(todo[1..]);
      VisitGroupIsStep(todo[0], live, w, e, w1);
      var rest := GroupLoopIsPass(todo[1..], live, w1, e, w');
      if GroupHit(todo[0], live, e) {
        news := [Entry(todo[0].AsRef(), RevisedGroup(todo[0], e).AsRef())] + rest;
        GroupHitFirst(todo, live, w, e, w1, w', rest);
      } else {
        news := rest;
        GroupMissFirst(todo, live, w, e, w', rest);
      }
    }
  }

  lemma {:induction false} GroupHitFirst(todo: seq<Group>, live: set<Ref>, w: Work, e: Entry, w1: Work, w': Work, rest: seq<Entry>)
    requires todo != [] && GroupHit(todo[0], live, e) && GroupStep(todo[0], live, w, e, w1)
    requires w1 == w.(groups := w1.groups, activeGroups := w1.activeGroups, queue := w1.queue)
    requires GroupPassIs(todo[1..], live, w1, e, w', rest)
    ensures GroupPassIs(todo, live, w, e, w', [Entry(todo[0].AsRef(), RevisedGroup(todo[0], e).AsRef())] + rest)
  {
    var news := [Entry(todo[0].AsRef(), RevisedGroup(todo[0], e).AsRef())] + rest;
    assert GroupItems(todo)[1..] == GroupItems(todo[1..]) && GroupItems(todo)[0] == GroupItem(todo[0]);
    assert news[1..] == rest && w.queue + news == w1.queue + rest;
  }

  lemma {:induction false} GroupMissFirst(todo: seq<Group>, live: set<Ref>, w: Work, e: Entry, w': Work, rest: seq<Entry>)
    requires todo != [] && !GroupHit(todo[0], live, e) && GroupStep(todo[0], live, w, e, w)
    requires GroupPassIs(todo[1..], live, w, e, w', rest)
    ensures GroupPassIs(todo, live, w, e, w', rest)
  {
    assert GroupItems(todo)[1..] == GroupItems(todo[1..]) && GroupItems(todo)[0] == GroupItem(todo[0]);
  }

  ghost predicate GroupStep(g: Group, live: set<Ref>, w: Work, e: Entry, w1: Work) {
    var m, r := GroupItem(g), Revised(GroupItem(g), e);
    && (GroupHit(g, live, e) <==> m.AsRef() in live && Wants(m, e))
    && (GroupHit(g, live, e) ==>
          !HasRef(GroupItems(w.groups), r.AsRef())
          && GroupLane(w1) == Lane(GroupItems(w.groups) + [r], ReplaceRef(w.activeGroups, Entry(m.AsRef(), r.AsRef())))
          && w1.queue == w.queue + [Entry(m.AsRef(), r.AsRef())])
    && (!GroupHit(g, live, e) ==> w1 == w)
  }

  lemma {:induction false} VisitGroupIsStep(g: Group, live: set<Ref>, w: Work, e: Entry, w1: Work)
    requires VisitGroup(g, live, w, e) == Ok(w1)
    requires ChildrenAreTasks([g]) && ChildrenAreTasks(w.groups)
    ensures GroupStep(g, live, w, e, w1)
    ensures ChildrenAreTasks(w1.groups) && w1.tasks == w.tasks && w1.activeTasks == w.activeTasks
  {
    assert g in [g];
    GroupHitIsWants(g, e);
    HasGroupIsHasRef(w.groups, RevisedGroup(g, e).AsRef());
    if GroupHit(g, live, e) {
      RevisedChildren(g, e);
      assert GroupItems(w1.groups) == GroupItems(w.groups) + [GroupItem(RevisedGroup(g, e))];
    }
  }

  lemma {:induction false} RevisedChildren(g: Group, e: Entry)
    requires forall c :: c in g.children ==> c.task.kind == TaskKind
    requires ChildHit(g, e) ==> e.target.kind == TaskKind
    ensures forall c :: c in RevisedGroup(g, e).children ==> c.task.kind == TaskKind
  {
    forall c | c in RevisedGroup(g, e).children
      ensures c.task.kind == TaskKind
    {
      var i :| 0 <= i < |g.children| && c == ReplaceChildren(g.children, e)[i];
      assert g.children[i] in g.children;
    }
  }
}
