/** The history of a worklist run. Following references through the log of all queued entries turns the
    live graph before the run into the live graph after it. */
module RewriteLog {
  import opened Core
  import opened Items
  import opened Rewrite
  import opened RewritePass
  import opened RewriteRound

  /** Where a reference leads when the logged rewrites are applied in order. */
  ghost function Chase(log: seq<Entry>, ref: Ref): Ref {
    if log == [] then ref else Substitute(log[|log| - 1], Chase(log[..|log| - 1], ref))
  }

  ghost function ChaseAll(log: seq<Entry>, refs: seq<Ref>): (r: seq<Ref>) {
    seq(|refs|, i requires 0 <= i < |refs| => Chase(log, refs[i]))
  }

  ghost function ChaseChildren(log: seq<Entry>, children: seq<Child>): seq<Child> {
    seq(|children|, i requires 0 <= i < |children| => children[i].(task := Chase(log, children[i].task)))
  }

  /** The same item at another revision, every mention led through the log. */
  ghost function Rebound(m: Item, revision: int, log: seq<Entry>): Item {
    match m
    case TaskItem(t) => TaskItem(t.(revision := revision, dependsOn := ChaseAll(log, t.dependsOn)))
    case GroupItem(g) =>
      GroupItem(g.(revision := revision, dependsOn := ChaseAll(log, g.dependsOn), children := ChaseChildren(log, g.children)))
  }

  lemma {:induction false} ChaseConcat(a: seq<Entry>, b: seq<Entry>, ref: Ref)
    ensures Chase(a + b, ref) == Chase(b, Chase(a, ref))
    decreases |b|
  {
    if b == [] {
      assert a + b == a;
    } else {
      assert (a + b)[..|a + b| - 1] == a + b[..|b| - 1];
      ChaseConcat(a, b[..|b| - 1], ref);
    }
  }

  lemma {:induction false} ChaseSnoc(log: seq<Entry>, e: Entry, ref: Ref)
    ensures Chase(log + [e], ref) == Substitute(e, Chase(log, ref))
  {
  }

  lemma {:induction false} ChaseUntouched(log: seq<Entry>, ref: Ref)
    requires forall n :: n in log ==> n.source != ref
    ensures Chase(log, ref) == ref
    decreases |log|
  {
    if log != [] { ChaseUntouched(log[..|log| - 1], ref); }
  }

  /** A reference never led anywhere but to itself or to some logged target. */
  lemma {:induction false} ChaseRange(log: seq<Entry>, ref: Ref)
    ensures Chase(log, ref) == ref || exists i :: 0 <= i < |log| && Chase(log, ref) == log[i].target
    decreases |log|
  {
    if log != [] { ChaseRange(log[..|log| - 1], ref); }
  }

  lemma {:induction false} ChaseOne(news: seq<Entry>, a: nat)
    requires a < |news|
    requires forall i, j :: 0 <= i < j < |news| ==> news[i].source != news[j].source
    requires forall i, j :: 0 <= i < |news| && 0 <= j < |news| ==> news[i].target != news[j].source
    ensures Chase(news[..a], news[a].source) == news[a].source
    ensures Chase(news, news[a].source) == news[a].target
  {
    ChaseUntouched(news[..a], news[a].source);
    ChaseSnoc(news[..a], news[a], news[a].source);
    assert news[..a + 1] == news[..a] + [news[a]];
    ChaseUntouched(news[a + 1..], news[a].target);
    assert news == news[..a + 1] + news[a + 1..];
    ChaseConcat(news[..a + 1], news[a + 1..], news[a].source);
  }

  lemma {:induction false} ReboundMentions(m: Item, revision: int, log: seq<Entry>)
    ensures Rebound(m, revision, log).Mentions() == ChaseAll(log, m.Mentions())
    ensures Rebound(m, revision, log).Status() == m.Status()
    ensures Rebound(m, revision, log).AsRef() == m.AsRef().(revision := revision)
  {
  }

  lemma {:induction false} ReboundRevised(m: Item, revision: int, log: seq<Entry>, e: Entry)
    ensures Revised(Rebound(m, revision, log), e) == Rebound(m, revision + 1, log + [e])
  {
  }

  lemma {:induction false} ReboundUnmentioned(m: Item, revision: int, log: seq<Entry>, e: Entry)
    requires e.source !in ChaseAll(log, m.Mentions())
    ensures Rebound(m, revision, log) == Rebound(m, revision, log + [e])
  {
    forall i | 0 <= i < |m.Mentions()|
      ensures Chase(log + [e], m.Mentions()[i]) == Chase(log, m.Mentions()[i])
    {
      ChaseSnoc(log, e, m.Mentions()[i]);
      assert ChaseAll(log, m.Mentions())[i] == Chase(log, m.Mentions()[i]);
    }
    match m
    case TaskItem(t) =>
      assert ChaseAll(log, t.dependsOn) == ChaseAll(log + [e], t.dependsOn);
    case GroupItem(g) =>
      forall i | 0 <= i < |g.dependsOn| ensures g.dependsOn[i] == m.Mentions()[i] {}
      forall i | 0 <= i < |g.children| ensures g.children[i].task == m.Mentions()[|g.dependsOn| + i] {}
      assert ChaseAll(log, g.dependsOn) == ChaseAll(log + [e], g.dependsOn);
      assert ChaseChildren(log, g.children) == ChaseChildren(log + [e], g.children);
  }

  // ---------------------------------------------------------------- starting states

  ghost predicate IsLiveId(w: Work, id: LogicalId)
    requires WorkOk(w)
  {
    exists k :: 0 <= k < |Live(w)| && Live(w)[k].AsRef().Logical() == id
  }

  /** A reference no later revision can collide with: it is already listed, or no live item has its
      logical id. */
  ghost predicate Settled(w: Work, ref: Ref)
    requires WorkOk(w)
  {
    Known(w, ref) || !IsLiveId(w, ref.Logical())
  }

  ghost predicate MentionsSettled(w: Work)
    requires WorkOk(w)
  {
    forall i, ref :: 0 <= i < |Live(w)| && Live(w)[i].Status() == Pending && ref in Live(w)[i].Mentions() ==> Settled(w, ref)
  }

  /** The lists and the single queued entry with which a patch operation enters the worklist: `source` was
      just superseded by `target`, both are listed, and no pending item mentions a revision to come. */
  ghost predicate StartOk(w: Work) {
    && WorkOk(w)
    && |w.queue| == 1
    && w.queue[0].source != w.queue[0].target
    && Known(w, w.queue[0].source) && Known(w, w.queue[0].target)
    && w.queue[0].source !in w.activeTasks + w.activeGroups
    && MentionsSettled(w)
  }

  // ---------------------------------------------------------------- dependents-walks

  /** Live item `i` is pending and, with the superseded reference replaced, mentions `ref`. */
  ghost predicate DependsOn(w: Work, i: nat, ref: Ref)
    requires StartOk(w)
  {
    i < |Live(w)| && Live(w)[i].Status() == Pending && ref in ReplaceRef(Live(w)[i].Mentions(), w.queue[0])
  }

  /** A chain of pending dependents: the first item mentions the superseded reference and each next one
      mentions its predecessor. */
  ghost predicate IsWalk(w: Work, path: seq<nat>)
    requires StartOk(w)
  {
    && path != []
    && (forall k :: 0 <= k < |path| ==> path[k] < |Live(w)|)
    && Live(w)[path[0]].Status() == Pending && w.queue[0].source in Live(w)[path[0]].Mentions()
    && forall k :: 0 < k < |path| ==> DependsOn(w, path[k], Live(w)[path[k - 1]].AsRef())
  }

  // ---------------------------------------------------------------- the run so far

  /** All entries ever queued, how many of them were popped, and for every entry but the first a
      dependents-walk that leads to the item it revises. */
  datatype Trace = Trace(log: seq<Entry>, popped: nat, walks: seq<seq<nat>>)

  ghost predicate LogFits(w0: Work, w: Work, tr: Trace) {
    && tr.popped <= |tr.log| == |tr.walks| && tr.log != []
    && w.queue == tr.log[tr.popped..]
    && w0.queue == [tr.log[0]]
    && w0.tasks <= w.tasks && w0.groups <= w.groups
  }

  /** The live graph is the image of the first one: pending mentions are led through the popped entries,
      references through all entries, and items that are not pending are untouched. */
  ghost predicate ImageOfStart(w0: Work, w: Work, tr: Trace)
    requires WorkOk(w0) && WorkOk(w) && tr.popped <= |tr.log|
  {
    && |Live(w)| == |Live(w0)|
    && (forall i :: 0 <= i < |Live(w0)| ==> Live(w)[i].AsRef() == Chase(tr.log, Live(w0)[i].AsRef()))
    && (forall i :: 0 <= i < |Live(w0)| ==>
          Live(w)[i] == if Live(w0)[i].Status() == Pending
                        then Rebound(Live(w0)[i], Live(w)[i].AsRef().revision, tr.log[..tr.popped])
                        else Live(w0)[i])
  }

  /** Every target is new when it is queued. */
  ghost predicate TargetsFresh(w0: Work, w: Work, log: seq<Entry>)
    requires WorkOk(w0)
  {
    && (forall i, j :: 0 <= j <= i < |log| ==> log[i].target != log[j].source)
    && (forall i, j :: 0 <= j < i < |log| ==> log[i].target != log[j].target)
    && (forall i :: 0 <= i < |log| ==> Known(w, log[i].source) && Known(w, log[i].target))
    && (forall i :: 1 <= i < |log| ==> !Known(w0, log[i].target) && log[i].source.Logical() == log[i].target.Logical())
    && (forall i :: 1 <= i < |log| ==> IsLiveId(w0, log[i].target.Logical()))
    && (forall ref :: Known(w0, ref) ==> Known(w, ref))
  }

  /** Every reference that the run listed is the target of some entry. */
  ghost predicate NothingElseListed(w0: Work, w: Work, log: seq<Entry>) {
    forall ref :: Known(w, ref) ==> Known(w0, ref) || IsTarget(log, ref)
  }

  ghost predicate IsTarget(log: seq<Entry>, ref: Ref) {
    exists n :: n in log && n.target == ref
  }

  ghost predicate IsSource(log: seq<Entry>, ref: Ref) {
    exists n :: n in log && n.source == ref
  }

  /** Entry `q` revises the live item that was at position `i` when the run started. */
  ghost predicate Revises(w0: Work, log: seq<Entry>, q: nat, i: nat)
    requires WorkOk(w0)
  {
    q < |log| && i < |Live(w0)| && log[q].source == Chase(log[..q], Live(w0)[i].AsRef())
  }

  ghost predicate WalksLead(w0: Work, tr: Trace)
    requires StartOk(w0)
  {
    |tr.walks| == |tr.log| && tr.walks != [] && tr.walks[0] == [] && forall q :: 1 <= q < |tr.log| ==>
      IsWalk(w0, tr.walks[q]) && Revises(w0, tr.log, q, tr.walks[q][|tr.walks[q]| - 1])
  }

  /** A popped entry revised every pending item that then mentioned its source. */
  ghost predicate AllServed(w0: Work, log: seq<Entry>, popped: nat)
    requires WorkOk(w0)
  {
    forall p: nat, i: nat {:trigger Served(w0, log, p, i)} :: p < popped && p < |log| && i < |Live(w0)| ==> Served(w0, log, p, i)
  }

  ghost predicate Served(w0: Work, log: seq<Entry>, p: nat, i: nat)
    requires WorkOk(w0)
    requires p < |log| && i < |Live(w0)|
  {
    Live(w0)[i].Status() == Pending && log[p].source in ChaseAll(log[..p], Live(w0)[i].Mentions()) ==>
      exists q: nat :: p < q && Revises(w0, log, q, i)
  }

  ghost predicate RunSoFar(w0: Work, w: Work, tr: Trace) {
    && StartOk(w0) && WorkOk(w)
    && LogFits(w0, w, tr)
    && ImageOfStart(w0, w, tr)
    && TargetsFresh(w0, w, tr.log)
    && NothingElseListed(w0, w, tr.log)
    && WalksLead(w0, tr)
    && AllServed(w0, tr.log, tr.popped)
  }

  lemma {:induction false} RunStarts(w0: Work)
    requires StartOk(w0)
    ensures RunSoFar(w0, w0, Trace(w0.queue, 0, [[]]))
  {
    var tr := Trace(w0.queue, 0, [[]]);
    LiveRefs(w0);
    forall i | 0 <= i < |Live(w0)|
      ensures Live(w0)[i].AsRef() == Chase(tr.log, Live(w0)[i].AsRef())
      ensures Rebound(Live(w0)[i], Live(w0)[i].AsRef().revision, []) == Live(w0)[i]
    {
      assert RefsOf(Live(w0))[i] == Live(w0)[i].AsRef();
      ChaseUntouched(tr.log, Live(w0)[i].AsRef());
      ReboundNothing(Live(w0)[i]);
    }
    assert tr.log[..0] == [];
  }

  lemma {:induction false} ReboundNothing(m: Item)
    ensures Rebound(m, m.AsRef().revision, []) == m
  {
  }
}
