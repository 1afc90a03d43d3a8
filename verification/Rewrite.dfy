/** The reference-rewrite worklist that every graph patch runs after it replaces a revision
    (`_rewrite_pending_references`). The functions say what one queue entry does; the method is the
    source's loop over the mutable lists and queue. */
module Rewrite {
  import opened Core

  /** One queued rewrite: pending mentions of `source` become mentions of `target`. */
  datatype Entry = Entry(source: Ref, target: Ref)

  /** The lists and the queue that the loop reassigns. */
  datatype Work = Work(tasks: seq<Task>, activeTasks: seq<Ref>, groups: seq<Group>, activeGroups: seq<Ref>, queue: seq<Entry>)

  function Substitute(e: Entry, ref: Ref): Ref {
    if ref == e.source then e.target else ref
  }

  function ReplaceRef(refs: seq<Ref>, e: Entry): (r: seq<Ref>)
  {
    seq(|refs|, i requires 0 <= i < |refs| => Substitute(e, refs[i]))
  }

  function ReplaceChildren(children: seq<Child>, e: Entry): (r: seq<Child>)
  {
    seq(|children|, i requires 0 <= i < |children| => children[i].(task := Substitute(e, children[i].task)))
  }

  predicate HasTask(tasks: seq<Task>, ref: Ref) {
    exists i :: 0 <= i < |tasks| && tasks[i].AsRef() == ref
  }

  predicate HasGroup(groups: seq<Group>, ref: Ref) {
    exists i :: 0 <= i < |groups| && groups[i].AsRef() == ref
  }

  predicate HasChild(children: seq<Child>, ref: Ref) {
    exists i :: 0 <= i < |children| && children[i].task == ref
  }

  function RevisedTask(t: Task, e: Entry): Task {
    t.(revision := t.revision + 1, dependsOn := ReplaceRef(t.dependsOn, e))
  }

  function RevisedGroup(g: Group, e: Entry): Group {
    g.(revision := g.revision + 1, dependsOn := ReplaceRef(g.dependsOn, e), children := ReplaceChildren(g.children, e))
  }

  predicate TaskHit(t: Task, live: set<Ref>, e: Entry) {
    t.AsRef() in live && t.status == Pending && e.source in t.dependsOn
  }

  predicate ChildHit(g: Group, e: Entry) {
    e.source.kind == TaskKind && HasChild(g.children, e.source)
  }

  predicate GroupHit(g: Group, live: set<Ref>, e: Entry) {
    g.AsRef() in live && g.status == Pending && (e.source in g.dependsOn || ChildHit(g, e))
  }

  function VisitTask(t: Task, live: set<Ref>, w: Work, e: Entry): Result<Work, GraphError> {
    if !TaskHit(t, live, e) then Ok(w)
    else
      var r := RevisedTask(t, e);
      if HasTask(w.tasks, r.AsRef()) then Err(DuplicateTask)
      else Ok(w.(tasks := w.tasks + [r],
                 activeTasks := ReplaceRef(w.activeTasks, Entry(t.AsRef(), r.AsRef())),
                 queue := w.queue + [Entry(t.AsRef(), r.AsRef())]))
  }

  function VisitGroup(g: Group, live: set<Ref>, w: Work, e: Entry): Result<Work, GraphError> {
    if !GroupHit(g, live, e) then Ok(w)
    else if ChildHit(g, e) && e.target.kind != TaskKind then Err(ChildRewrittenToNonTask)
    else
      var r := RevisedGroup(g, e);
      if HasGroup(w.groups, r.AsRef()) then Err(DuplicateGroup)
      else Ok(w.(groups := w.groups + [r],
                 activeGroups := ReplaceRef(w.activeGroups, Entry(g.AsRef(), r.AsRef())),
                 queue := w.queue + [Entry(g.AsRef(), r.AsRef())]))
  }

  /** One pass over a snapshot of the Task list, `live` being the active set before the pass. */
  function TaskPass(todo: seq<Task>, live: set<Ref>, w: Work, e: Entry): Result<Work, GraphError> {
    if todo == [] then Ok(w)
    else
      var r := VisitTask(todo[0], live, w, e);
      if r.Err? then r else TaskPass(todo[1..], live, r.value, e)
  }

  function GroupPass(todo: seq<Group>, live: set<Ref>, w: Work, e: Entry): Result<Work, GraphError> {
    if todo == [] then Ok(w)
    else
      var r := VisitGroup(todo[0], live, w, e);
      if r.Err? then r else GroupPass(todo[1..], live, r.value, e)
  }

  /** Pops the head of the queue and rewrites every active pending item that mentions it. */
  function Round(w: Work): Result<Work, GraphError>
    requires w.queue != []
  {
    var e := w.queue[0];
    var w1 := w.(queue := w.queue[1..]);
    var r := TaskPass(w1.tasks, Elements(w1.activeTasks), w1, e);
    if r.Err? then r
    else GroupPass(r.value.groups, Elements(r.value.activeGroups), r.value, e)
  }

  datatype Outcome = Done(work: Work) | Raised(error: GraphError) | Unfinished

  /** The state of the loop after at most `rounds` iterations. */
  function RunRounds(w: Work, rounds: nat): Outcome
    decreases rounds
  {
    if w.queue == [] then Done(w)
    else if rounds == 0 then Unfinished
    else
      match Round(w)
      case Err(error) => Raised(error)
      case Ok(w') => RunRounds(w', rounds - 1)
  }

  /** The loop leaves after finitely many iterations, normally or by raising. */
  ghost predicate Terminates(w: Work) {
    exists rounds: nat :: RunRounds(w, rounds) != Unfinished
  }

  lemma {:induction false} MoreRoundsSameOutcome(w: Work, few: nat, many: nat)
    requires few <= many && RunRounds(w, few) != Unfinished
    ensures RunRounds(w, many) == RunRounds(w, few)
    decreases few
  {
    if w.queue != [] {
      match Round(w)
      case Err(_) =>
      case Ok(w') => MoreRoundsSameOutcome(w', few - 1, many - 1);
    }
  }

  ghost predicate Follows(w: Work, w': Work) {
    w.queue != [] && Round(w) == Ok(w')
  }

  /** Loop rule: what every round keeps holds when the loop is done. */
  lemma {:induction false} RunKeeps(keeps: Work -> bool, w: Work, rounds: nat, end: Work)
    requires keeps(w) && forall a, b :: keeps(a) && Follows(a, b) ==> keeps(b)
    requires RunRounds(w, rounds) == Done(end)
    ensures keeps(end) && end.queue == []
    decreases rounds
  {
    if w.queue != [] {
      var w1 := Round(w).value;
      assert Follows(w, w1);
      RunKeeps(keeps, w1, rounds - 1, end);
    }
  }

  /** Loop rule: a budget that every round spends is enough rounds. */
  lemma {:induction false} BudgetSuffices(within: (Work, nat) -> bool, w: Work, budget: nat)
    requires within(w, budget)
    requires forall a, b, n: nat :: within(a, n) && Follows(a, b) ==> n > 0 && within(b, n - 1)
    ensures RunRounds(w, budget + 1) != Unfinished
    decreases budget
  {
    if w.queue != [] && Round(w).Ok? {
      var w1 := Round(w).value;
      assert Follows(w, w1);
      BudgetSuffices(within, w1, budget - 1);
    }
  }

  /** Loop rule: if no round can raise, the loop does not. */
  lemma {:induction false} RunNeverRaises(keeps: Work -> bool, w: Work, rounds: nat)
    requires keeps(w)
    requires forall a :: keeps(a) && a.queue != [] ==> Round(a).Ok?
    requires forall a, b :: keeps(a) && Follows(a, b) ==> keeps(b)
    ensures !RunRounds(w, rounds).Raised?
    decreases rounds
  {
    if w.queue != [] && rounds > 0 {
      var w1 := Round(w).value;
      assert Follows(w, w1);
      RunNeverRaises(keeps, w1, rounds - 1);
    }
  }

  /** What the finished loop returns or raises. It does not depend on the number of rounds granted. */
  ghost function FinalOutcome(w: Work): (o: Outcome)
    requires Terminates(w)
    ensures o != Unfinished
  {
    var rounds: nat :| RunRounds(w, rounds) != Unfinished;
    RunRounds(w, rounds)
  }

  lemma {:induction false} OutcomeIsAnyFinishedRun(w: Work, rounds: nat)
    requires RunRounds(w, rounds) != Unfinished
    ensures Terminates(w) && FinalOutcome(w) == RunRounds(w, rounds)
  {
    forall other: nat | RunRounds(w, other) != Unfinished
      ensures RunRounds(w, other) == RunRounds(w, rounds)
    {
      if other <= rounds { MoreRoundsSameOutcome(w, other, rounds); } else { MoreRoundsSameOutcome(w, rounds, other); }
    }
  }

  /** The source's loop. It has no bound of its own: it may be called exactly when it terminates. */
  method RewritePendingReferences(tasks0: seq<Task>, activeTasks0: seq<Ref>, groups0: seq<Group>, activeGroups0: seq<Ref>,
                                  oldRef: Ref, newRef: Ref)
    returns (result: Outcome)
    requires Terminates(Work(tasks0, activeTasks0, groups0, activeGroups0, [Entry(oldRef, newRef)]))
    ensures result == FinalOutcome(Work(tasks0, activeTasks0, groups0, activeGroups0, [Entry(oldRef, newRef)]))
    ensures result.Done? ==> result.work.queue == []
  {
    var tasks, activeTasks, groups, activeGroups := tasks0, activeTasks0, groups0, activeGroups0;
    var queue := [Entry(oldRef, newRef)];
    ghost var start := Work(tasks, activeTasks, groups, activeGroups, queue);
    ghost var total: nat :| RunRounds(start, total) != Unfinished;
    OutcomeIsAnyFinishedRun(start, total);
    ghost var left := total;
    while queue != []
      invariant RunRounds(Work(tasks, activeTasks, groups, activeGroups, queue), left) == RunRounds(start, total)
      decreases left
    {
      ghost var before := Work(tasks, activeTasks, groups, activeGroups, queue);
      var e := queue[0];
      queue := queue[1..];
      var live := Elements(activeTasks);
      var snapshot := tasks;
      ghost var popped := Work(tasks, activeTasks, groups, activeGroups, queue);
      assert popped == before.(queue := before.queue[1..]);
      var i := 0;
      while i < |snapshot|
        invariant 0 <= i <= |snapshot|
        invariant TaskPass(snapshot[i..], live, Work(tasks, activeTasks, groups, activeGroups, queue), e)
               == TaskPass(snapshot, live, popped, e)
      {
        var t := snapshot[i];
        assert snapshot[i..][0] == t && snapshot[i..][1..] == snapshot[i + 1..];
        if TaskHit(t, live, e) {
          var r := RevisedTask(t, e);
          if HasTask(tasks, r.AsRef()) { return Raised(DuplicateTask); }
          tasks := tasks + [r];
          activeTasks := ReplaceRef(activeTasks, Entry(t.AsRef(), r.AsRef()));
          queue := queue + [Entry(t.AsRef(), r.AsRef())];
        }
        i := i + 1;
      }
      ghost var half := Work(tasks, activeTasks, groups, activeGroups, queue);
      var liveGroups := Elements(activeGroups);
      var groupSnapshot := groups;
      i := 0;
      while i < |groupSnapshot|
        invariant 0 <= i <= |groupSnapshot|
        invariant GroupPass(groupSnapshot[i..], liveGroups, Work(tasks, activeTasks, groups, activeGroups, queue), e)
               == GroupPass(groupSnapshot, liveGroups, half, e)
      {
        var g := groupSnapshot[i];
        assert groupSnapshot[i..][0] == g && groupSnapshot[i..][1..] == groupSnapshot[i + 1..];
        if GroupHit(g, liveGroups, e) {
          if ChildHit(g, e) && e.target.kind != TaskKind { return Raised(ChildRewrittenToNonTask); }
          var r := RevisedGroup(g, e);
          if HasGroup(groups, r.AsRef()) { return Raised(DuplicateGroup); }
          groups := groups + [r];
          activeGroups := ReplaceRef(activeGroups, Entry(g.AsRef(), r.AsRef()));
          queue := queue + [Entry(g.AsRef(), r.AsRef())];
        }
        i := i + 1;
      }
      assert Round(before) == Ok(Work(tasks, activeTasks, groups, activeGroups, queue));
      left := left - 1;
    }
    result := Done(Work(tasks, activeTasks, groups, activeGroups, queue));
  }
}
