/** Group joins (`evaluate_group`) and the atomic commit of an any-success winner
    (`commit_any_success_winner`). */
module Groups {
  import opened Core
  import opened Items
  import opened Order
  import opened Attempts
  import Rebase

  // ---------------------------------------------------------------- evaluation

  datatype Verdict = StillPending | StillRunning | ReadyToVerify | GroupFails

  datatype Decision = Decision(verdict: Verdict, candidates: seq<Task>, winner: Option<Task>)

  /** The children's Tasks, or None when one is not listed. */
  function ChildTasks(g: Graph, children: seq<Child>): (r: Option<seq<Task>>)
    ensures r.Some? ==> |r.value| == |children| && forall i :: 0 <= i < |children| ==> r.value[i] in g.tasks && r.value[i].AsRef() == children[i].task
  {
    if children == [] then Some([])
    else
      match (FindTask(g.tasks, children[0].task), ChildTasks(g, children[1..]))
      case (Some(t), Some(rest)) => Some([t] + rest)
      case _ => None
  }

  function RequiredOf(children: seq<Child>, tasks: seq<Task>): (r: seq<Task>)
    requires |tasks| == |children|
    ensures forall t :: t in r <==> exists i :: 0 <= i < |tasks| && children[i].required && tasks[i] == t
  {
    if tasks == [] then []
    else
      var rest := RequiredOf(children[1..], tasks[1..]);
      assert forall i :: 0 <= i < |tasks| - 1 ==> tasks[1..][i] == tasks[i + 1] && children[1..][i] == children[i + 1];
      if children[0].required then [tasks[0]] + rest else rest
  }

  predicate IsDone(s: Status) { s == Completed }

  predicate IsDead(s: Status) { s == Failed || s == Cancelled }

  predicate IsOpen(s: Status) { s == Pending || s == Running || s == Waiting || s == Verifying }

  function WithStatus(tasks: seq<Task>, p: Status -> bool): (r: seq<Task>)
    ensures forall t :: t in r <==> t in tasks && p(t.status)
  {
    if tasks == [] then []
    else (if p(tasks[0].status) then [tasks[0]] else []) + WithStatus(tasks[1..], p)
  }

  function NotRejected(tasks: seq<Task>, rejected: seq<Ref>): (r: seq<Task>)
    ensures forall t :: t in r <==> t in tasks && t.AsRef() !in rejected
  {
    if tasks == [] then []
    else (if tasks[0].AsRef() in rejected then [] else [tasks[0]]) + NotRejected(tasks[1..], rejected)
  }

  predicate Better(a: Task, b: Task) {
    a.priority > b.priority || (a.priority == b.priority && a.id != b.id && LessEq(a.id, b.id))
  }

  /** Python's `min` by (-priority, id): the first of the least. */
  function Best(tasks: seq<Task>): (t: Task)
    requires tasks != []
    ensures t in tasks
  {
    if |tasks| == 1 then tasks[0]
    else
      var rest := Best(tasks[1..]);
      if Better(rest, tasks[0]) then rest else tasks[0]
  }

  predicate AllStatus(tasks: seq<Task>, status: Status) {
    forall i :: 0 <= i < |tasks| ==> tasks[i].status == status
  }

  function Idle(tasks: seq<Task>): Decision {
    Decision(if AllStatus(tasks, Pending) then StillPending else StillRunning, [], None)
  }

  /** None stands for the error that a child Task is unknown. */
  function Evaluate(group: Group, g: Graph, rejected: seq<Ref>): Option<Decision> {
    match ChildTasks(g, group.children)
    case None => None
    case Some(children) =>
      var required := RequiredOf(group.children, children);
      var completed := WithStatus(children, IsDone);
      match group.join
      case AllRequired =>
        if WithStatus(required, IsDead) != [] then Some(Decision(GroupFails, [], None))
        else if required != [] && AllStatus(required, Completed) then Some(Decision(ReadyToVerify, completed, None))
        else Some(Idle(children))
      case AnySuccess =>
        var viable := NotRejected(completed, rejected);
        if viable != [] then Some(Decision(ReadyToVerify, [Best(viable)], Some(Best(viable))))
        else if WithStatus(children, IsOpen) == [] then Some(Decision(GroupFails, [], None))
        else Some(Idle(children))
  }

  lemma {:induction false} BestIsBest(tasks: seq<Task>)
    requires tasks != []
    ensures forall t :: t in tasks ==> !Better(t, Best(tasks))
    decreases |tasks|
  {
    if |tasks| > 1 {
      BestIsBest(tasks[1..]);
      assert tasks == [tasks[0]] + tasks[1..];
      var b, rest := Best(tasks), Best(tasks[1..]);
      forall t | t in tasks ensures !Better(t, b) {
        LessEqTotal(t.id, rest.id);
        LessEqTotal(tasks[0].id, rest.id);
        LessEqTotal(t.id, tasks[0].id);
        if Better(t, b) && t != tasks[0] && b == tasks[0] {
          if LessEq(t.id, b.id) && LessEq(b.id, rest.id) { LessEqTransitive(t.id, b.id, rest.id); LessEqTotal(t.id, rest.id); }
        }
      }
    }
  }

  lemma {:induction false} SomeMember<T>(s: seq<T>)
    ensures s != [] <==> exists t :: t in s
  {
    if s != [] { assert s[0] in s; }
  }

  /** An any-success Group has a winner exactly when some child is completed and not rejected; the winner is
      one of those, and none of them has a higher priority or, at the same priority, a smaller id. */
  lemma {:induction false} WinnerIff(group: Group, g: Graph, rejected: seq<Ref>)
    requires group.join == AnySuccess && Evaluate(group, g, rejected).Some?
    ensures var d, children := Evaluate(group, g, rejected).value, ChildTasks(g, group.children).value;
      && (d.winner.Some? <==> exists t :: t in children && t.status == Completed && t.AsRef() !in rejected)
      && (d.winner.Some? ==>
            && d.winner.value in children && d.winner.value.status == Completed && d.winner.value.AsRef() !in rejected
            && forall t :: t in children && t.status == Completed && t.AsRef() !in rejected ==> !Better(t, d.winner.value))
  {
    var children := ChildTasks(g, group.children).value;
    var viable := NotRejected(WithStatus(children, IsDone), rejected);
    SomeMember(viable);
    if viable != [] { BestIsBest(viable); }
  }

  /** It fails exactly when every child is dead, or completed and rejected. */
  lemma {:induction false} AnySuccessFailsIff(group: Group, g: Graph, rejected: seq<Ref>)
    requires group.join == AnySuccess && Evaluate(group, g, rejected).Some?
    ensures var d, children := Evaluate(group, g, rejected).value, ChildTasks(g, group.children).value;
      d.verdict == GroupFails <==> forall t :: t in children ==> IsDead(t.status) || (t.status == Completed && t.AsRef() in rejected)
  {
    NoneLeftIff(ChildTasks(g, group.children).value, rejected);
  }

  lemma {:induction false} NoneLeftIff(children: seq<Task>, rejected: seq<Ref>)
    ensures NotRejected(WithStatus(children, IsDone), rejected) == [] && WithStatus(children, IsOpen) == []
            <==> forall t :: t in children ==> IsDead(t.status) || (t.status == Completed && t.AsRef() in rejected)
  {
    var viable, active := NotRejected(WithStatus(children, IsDone), rejected), WithStatus(children, IsOpen);
    SomeMember(viable);
    SomeMember(active);
    if viable == [] && active == [] {
      forall t | t in children ensures IsDead(t.status) || (t.status == Completed && t.AsRef() in rejected) {
        EveryStatus(t.status);
        if IsDone(t.status) { assert t in WithStatus(children, IsDone); }
      }
    }
  }

  lemma {:induction false} EveryStatus(s: Status)
    ensures IsOpen(s) || IsDead(s) || IsDone(s)
  {
  }

  /** An all-required Group is verified exactly when it has required children and all of them are completed,
      and fails exactly when one of them failed or was cancelled. */
  lemma {:induction false} AllRequiredIff(group: Group, g: Graph, rejected: seq<Ref>)
    requires group.join == AllRequired && Evaluate(group, g, rejected).Some?
    ensures var d, required := Evaluate(group, g, rejected).value, RequiredOf(group.children, ChildTasks(g, group.children).value);
      && (d.verdict == GroupFails <==> exists t :: t in required && IsDead(t.status))
      && (d.verdict == ReadyToVerify <==> required != [] && forall t :: t in required ==> t.status == Completed)
      && (d.verdict == ReadyToVerify ==>
            forall t :: t in d.candidates <==> t in ChildTasks(g, group.children).value && t.status == Completed)
  {
    var required := RequiredOf(group.children, ChildTasks(g, group.children).value);
    SomeMember(WithStatus(required, IsDead));
    if AllStatus(required, Completed) {
      forall t | t in required ensures t.status == Completed { var k :| 0 <= k < |required| && required[k] == t; }
    }
  }

  /** Evaluation raises exactly when a child is not listed. */
  lemma {:induction false} EvaluatesIff(group: Group, g: Graph, rejected: seq<Ref>)
    ensures Evaluate(group, g, rejected).Some? <==> forall c :: c in group.children ==> exists t :: t in g.tasks && t.AsRef() == c.task
  {
    ChildrenListed(g, group.children);
  }

  lemma {:induction false} ChildrenListed(g: Graph, children: seq<Child>)
    ensures ChildTasks(g, children).Some? <==> forall c :: c in children ==> exists t :: t in g.tasks && t.AsRef() == c.task
    decreases |children|
  {
    if children != [] {
      assert children == [children[0]] + children[1..];
      ChildrenListed(g, children[1..]);
    }
  }

  lemma {:induction false} AllPendingIff(tasks: seq<Task>)
    ensures AllStatus(tasks, Pending) <==> forall t :: t in tasks ==> t.status == Pending
  {
    if AllStatus(tasks, Pending) {
      forall t | t in tasks ensures t.status == Pending { var k :| 0 <= k < |tasks| && tasks[k] == t; }
    }
  }

  /** The verdict on an any-success Group: it is ready exactly with its winner, which is then the one candidate; it
      fails exactly when no child can succeed any more; and while neither is so it is pending exactly as long as
      all its children are. */
  lemma {:induction false} AnySuccessVerdict(group: Group, g: Graph, rejected: seq<Ref>)
    requires group.join == AnySuccess && Evaluate(group, g, rejected).Some?
    ensures var d, children := Evaluate(group, g, rejected).value, ChildTasks(g, group.children).value;
      && (d.verdict == ReadyToVerify <==> exists t :: t in children && t.status == Completed && t.AsRef() !in rejected)
      && (d.verdict == ReadyToVerify <==> d.winner.Some?) && (d.candidates == if d.winner.Some? then [d.winner.value] else [])
      && (d.verdict == StillPending || d.verdict == StillRunning ==>
            (d.verdict == StillPending <==> forall t :: t in children ==> t.status == Pending))
  {
    WinnerIff(group, g, rejected);
    AllPendingIff(ChildTasks(g, group.children).value);
  }

  /** The same for an all-required Group, which has no winner. */
  lemma {:induction false} AllRequiredVerdict(group: Group, g: Graph, rejected: seq<Ref>)
    requires group.join == AllRequired && Evaluate(group, g, rejected).Some?
    ensures var d, children := Evaluate(group, g, rejected).value, ChildTasks(g, group.children).value;
      && d.winner.None? && (d.verdict != ReadyToVerify ==> d.candidates == [])
      && (d.verdict == StillPending || d.verdict == StillRunning ==>
            (d.verdict == StillPending <==> forall t :: t in children ==> t.status == Pending))
  {
    AllPendingIff(ChildTasks(g, group.children).value);
  }

  // ---------------------------------------------------------------- the commit

  /** The lists that the commit edits. */
  datatype Ledger = Ledger(attempts: seq<Attempt>, locks: seq<Lock>, cancellations: seq<Cancellation>)

  function Retired(a: Attempt): Attempt {
    a.(status := AttemptCancelled, lease := a.lease.(retiring := true))
  }

  function RetireLocks(locks: seq<Lock>, id: string): (r: seq<Lock>) {
    seq(|locks|, k requires 0 <= k < |locks| => if locks[k].attemptId == id then locks[k].(retiring := true) else locks[k])
  }

  /** Cancels the Attempt at this position; `newId` supplies the id of the n-th cancellation. */
  function RetireAt(l: Ledger, i: nat, newId: nat -> string): Ledger
    requires i < |l.attempts|
  {
    var a := l.attempts[i];
    Ledger(l.attempts[i := Retired(a)], RetireLocks(l.locks, a.id),
           l.cancellations + [Cancellation(newId(|l.cancellations|), a.id, a.lease.epoch, a.lease.token, false)])
  }

  /** Cancels every Attempt with this id, from this position on. */
  function RetireMatching(l: Ledger, id: string, i: nat, newId: nat -> string): (r: Ledger)
    requires i <= |l.attempts|
    ensures |r.attempts| == |l.attempts| && |r.locks| == |l.locks|
    decreases |l.attempts| - i
  {
    if i == |l.attempts| then l
    else RetireMatching(if l.attempts[i].id == id then RetireAt(l, i, newId) else l, id, i + 1, newId)
  }

  /** A child other than the winner that has not ended. */
  predicate IsLoser(t: Task, group: Group, winner: Ref) {
    t.AsRef() in ChildRefs(group.children) && t.AsRef() != winner && IsOpen(t.status)
  }

  /** The text recorded with the failure is shortened. */
  function Lost(t: Task): Task {
    t.(status := Cancelled, activeAttempt := None, failure := Some("cancelled after Group winner"))
  }

  function RetireLosers(todo: seq<Task>, group: Group, winner: Ref, l: Ledger, newId: nat -> string): (r: Ledger)
    ensures |r.attempts| == |l.attempts| && |r.locks| == |l.locks|
    decreases |todo|
  {
    if todo == [] then l
    else
      RetireLosers(todo[1..], group, winner,
                   if IsLoser(todo[0], group, winner) && todo[0].activeAttempt.Some? then RetireMatching(l, todo[0].activeAttempt.value, 0, newId) else l,
                   newId)
  }

  function LostTasks(tasks: seq<Task>, group: Group, winner: Ref): (r: seq<Task>) {
    seq(|tasks|, i requires 0 <= i < |tasks| => if IsLoser(tasks[i], group, winner) then Lost(tasks[i]) else tasks[i])
  }

  function Won(group: Group, winner: Ref, record: string): Group {
    group.(status := Completed, winner := Some(winner), verification := Some(if group.verification.Some? && group.verification.value != "" then group.verification.value else record))
  }

  /** `record` stands for the reference derived from the Group's and the winner's keys. */
  function Commit(s: Rebase.State, group: Group, winner: Task, record: string, newId: nat -> string): Rebase.State {
    var g := s.graph;
    var l := RetireLosers(g.tasks, group, winner.AsRef(), Ledger(s.attempts, s.locks, s.cancellations), newId);
    var done := Won(group, winner.AsRef(), record);
    s.(graph := g.(tasks := LostTasks(g.tasks, group, winner.AsRef()),
                   groups := seq(|g.groups|, i requires 0 <= i < |g.groups| => if g.groups[i].AsRef() == group.AsRef() then done else g.groups[i])),
       attempts := l.attempts, locks := l.locks, cancellations := l.cancellations)
  }

  /** The source's nested loops. */
  method CommitAnySuccessWinner(s: Rebase.State, group: Group, winner: Task, record: string, newId: nat -> string) returns (s': Rebase.State)
    ensures s' == Commit(s, group, winner, record, newId)
  {
    var all := s.graph.tasks;
    var tasks: seq<Task> := [];
    var attempts, locks, cancellations := s.attempts, s.locks, s.cancellations;
    ghost var whole := RetireLosers(all, group, winner.AsRef(), Ledger(attempts, locks, cancellations), newId);
    for i := 0 to |all|
      invariant tasks == LostTasks(all, group, winner.AsRef())[..i]
      invariant RetireLosers(all[i..], group, winner.AsRef(), Ledger(attempts, locks, cancellations), newId) == whole
    {
      var t := all[i];
      assert all[i..][0] == t && all[i..][1..] == all[i + 1..];
      if !IsLoser(t, group, winner.AsRef()) {
        tasks := tasks + [t];
      } else {
        tasks := tasks + [Lost(t)];
        if t.activeAttempt.Some? {
          attempts, locks, cancellations := RetireAttempts(attempts, locks, cancellations, t.activeAttempt.value, newId);
        }
      }
    }
    assert all[|all|..] == [];
    var groups: seq<Group> := seq(|s.graph.groups|, i requires 0 <= i < |s.graph.groups| =>
      if s.graph.groups[i].AsRef() == group.AsRef() then Won(group, winner.AsRef(), record) else s.graph.groups[i]);
    s' := s.(graph := s.graph.(tasks := tasks, groups := groups), attempts := attempts, locks := locks, cancellations := cancellations);
  }

  method RetireAttempts(attempts0: seq<Attempt>, locks0: seq<Lock>, cancellations0: seq<Cancellation>, id: string, newId: nat -> string)
    returns (attempts: seq<Attempt>, locks: seq<Lock>, cancellations: seq<Cancellation>)
    ensures Ledger(attempts, locks, cancellations) == RetireMatching(Ledger(attempts0, locks0, cancellations0), id, 0, newId)
  {
    attempts, locks, cancellations := attempts0, locks0, cancellations0;
    for i := 0 to |attempts0|
      invariant |attempts| == |attempts0|
      invariant RetireMatching(Ledger(attempts, locks, cancellations), id, i, newId) == RetireMatching(Ledger(attempts0, locks0, cancellations0), id, 0, newId)
    {
      var a := attempts[i];
      if a.id == id {
        attempts := attempts[i := Retired(a)];
        locks := RetireLocks(locks, a.id);
        cancellations := cancellations + [Cancellation(newId(|cancellations|), a.id, a.lease.epoch, a.lease.token, false)];
      }
    }
  }
}
