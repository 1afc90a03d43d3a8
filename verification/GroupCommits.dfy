/** What committing an any-success winner does to the whole state. */
module GroupCommits {
  import opened Core
  import opened Items
  import opened Attempts
  import opened Groups
  import Rebase

  // ---------------------------------------------------------------- one loser

  /** The Attempts retired are those with this id; locks of a matching Attempt retire with it. */
  lemma {:induction false} MatchingRetired(l: Ledger, id: string, i: nat, newId: nat -> string)
    requires i <= |l.attempts|
    ensures var r := RetireMatching(l, id, i, newId);
      && (forall k :: 0 <= k < |l.attempts| ==> r.attempts[k] == if k >= i && l.attempts[k].id == id then Retired(l.attempts[k]) else l.attempts[k])
      && (forall k :: 0 <= k < |l.locks| ==> r.locks[k] == if HasIdFrom(l.attempts, id, i) && l.locks[k].attemptId == id then l.locks[k].(retiring := true) else l.locks[k])
    decreases |l.attempts| - i
  {
    if i < |l.attempts| {
      var l1 := if l.attempts[i].id == id then RetireAt(l, i, newId) else l;
      MatchingRetired(l1, id, i + 1, newId);
      HasIdStep(l.attempts, l1.attempts, id, i);
    }
  }

  ghost predicate HasIdFrom(attempts: seq<Attempt>, id: string, i: nat) {
    exists k :: i <= k < |attempts| && attempts[k].id == id
  }

  lemma {:induction false} HasIdStep(attempts: seq<Attempt>, after: seq<Attempt>, id: string, i: nat)
    requires i < |attempts| && |after| == |attempts| && forall k :: 0 <= k < |attempts| ==> after[k].id == attempts[k].id
    ensures HasIdFrom(attempts, id, i) <==> attempts[i].id == id || HasIdFrom(after, id, i + 1)
  {
  }

  /** The positions of the Attempts with this id, from position `i` on. */
  function Positions(attempts: seq<Attempt>, id: string, i: nat): (r: seq<nat>)
    requires i <= |attempts|
    ensures forall k :: k in r <==> i <= k < |attempts| && attempts[k].id == id
    ensures Within(r, |attempts|)
    decreases |attempts| - i
  {
    if i == |attempts| then []
    else (if attempts[i].id == id then [i] else []) + Positions(attempts, id, i + 1)
  }

  function RequestFor(a: Attempt, id: string): Cancellation {
    Cancellation(id, a.id, a.lease.epoch, a.lease.token, false)
  }

  predicate Within(positions: seq<nat>, n: nat) {
    forall k :: 0 <= k < |positions| ==> positions[k] < n
  }

  /** One request per retired Attempt, in order, with the lease it held. */
  function RequestsFor(attempts: seq<Attempt>, positions: seq<nat>, start: nat, newId: nat -> string): (r: seq<Cancellation>)
    requires Within(positions, |attempts|)
  {
    seq(|positions|, n requires 0 <= n < |positions| => RequestFor(attempts[positions[n]], newId(start + n)))
  }

  ghost predicate SameNames(a: seq<Attempt>, b: seq<Attempt>) {
    |a| == |b| && forall k :: 0 <= k < |a| ==> RequestFor(a[k], "") == RequestFor(b[k], "")
  }

  /** Requests made in two stages are the requests of both. */
  lemma {:induction false} RequestsFurther(l: Ledger, l1: Ledger, r: Ledger, mine: seq<nat>, rest: seq<nat>, newId: nat -> string)
    requires SameNames(l.attempts, l1.attempts) && Within(mine, |l.attempts|) && Within(rest, |l.attempts|)
    requires l1.cancellations == l.cancellations + RequestsFor(l.attempts, mine, |l.cancellations|, newId)
    requires r.cancellations == l1.cancellations + RequestsFor(l1.attempts, rest, |l1.cancellations|, newId)
    ensures Within(mine + rest, |l.attempts|)
    ensures r.cancellations == l.cancellations + RequestsFor(l.attempts, mine + rest, |l.cancellations|, newId)
  {
  }

  lemma {:induction false} SamePositions(a: seq<Attempt>, b: seq<Attempt>, id: string, i: nat)
    requires |a| == |b| && i <= |a| && forall k :: i <= k < |a| ==> a[k].id == b[k].id
    ensures Positions(a, id, i) == Positions(b, id, i)
    decreases |a| - i
  {
    if i < |a| { SamePositions(a, b, id, i + 1); }
  }

  lemma {:induction false} MatchingRequests(l: Ledger, id: string, i: nat, newId: nat -> string)
    requires i <= |l.attempts|
    ensures RetireMatching(l, id, i, newId).cancellations
         == l.cancellations + RequestsFor(l.attempts, Positions(l.attempts, id, i), |l.cancellations|, newId)
    decreases |l.attempts| - i
  {
    if i < |l.attempts| {
      var rest := Positions(l.attempts, id, i + 1);
      if l.attempts[i].id == id {
        var l1 := RetireAt(l, i, newId);
        MatchingRequests(l1, id, i + 1, newId);
        SamePositions(l.attempts, l1.attempts, id, i + 1);
        assert RequestsFor(l.attempts, [i], |l.cancellations|, newId) == [RequestFor(l.attempts[i], newId(|l.cancellations|))];
        RequestsFurther(l, l1, RetireMatching(l1, id, i + 1, newId), [i], rest, newId);
      } else {
        MatchingRequests(l, id, i + 1, newId);
      }
    }
  }

  // ---------------------------------------------------------------- all losers

  /** Some loser among these Tasks points to an Attempt with this id. */
  ghost predicate Doomed(tasks: seq<Task>, group: Group, winner: Ref, id: string) {
    exists i :: 0 <= i < |tasks| && DoomedBy(tasks[i], group, winner, id)
  }

  ghost predicate DoomedBy(t: Task, group: Group, winner: Ref, id: string) {
    IsLoser(t, group, winner) && t.activeAttempt == Some(id)
  }

  lemma {:induction false} DoomedTail(tasks: seq<Task>, group: Group, winner: Ref, id: string)
    requires tasks != []
    ensures Doomed(tasks, group, winner, id) <==> DoomedBy(tasks[0], group, winner, id) || Doomed(tasks[1..], group, winner, id)
  {
  }

  ghost predicate RetiredAs(l: Ledger, r: Ledger, tasks: seq<Task>, group: Group, winner: Ref) {
    && |r.attempts| == |l.attempts|
    && forall k :: 0 <= k < |l.attempts| ==>
         r.attempts[k] == if Doomed(tasks, group, winner, l.attempts[k].id) then Retired(l.attempts[k]) else l.attempts[k]
  }

  /** Exactly the Attempts of losers are retired. */
  lemma {:induction false} LosersRetired(todo: seq<Task>, group: Group, winner: Ref, l: Ledger, newId: nat -> string)
    ensures RetiredAs(l, RetireLosers(todo, group, winner, l, newId), todo, group, winner)
    decreases |todo|
  {
    if todo != [] {
      var t := todo[0];
      var hit := IsLoser(t, group, winner) && t.activeAttempt.Some?;
      var l1 := if hit then RetireMatching(l, t.activeAttempt.value, 0, newId) else l;
      if hit { MatchingRetired(l, t.activeAttempt.value, 0, newId); }
      LosersRetired(todo[1..], group, winner, l1, newId);
      forall k | 0 <= k < |l.attempts|
        ensures RetireLosers(todo, group, winner, l, newId).attempts[k]
             == if Doomed(todo, group, winner, l.attempts[k].id) then Retired(l.attempts[k]) else l.attempts[k]
      {
        DoomedTail(todo, group, winner, l.attempts[k].id);
        assert l1.attempts[k].id == l.attempts[k].id;
      }
    }
  }

  ghost predicate KnownId(attempts: seq<Attempt>, id: string) {
    exists k :: 0 <= k < |attempts| && attempts[k].id == id
  }

  ghost predicate LocksAs(l: Ledger, r: Ledger, tasks: seq<Task>, group: Group, winner: Ref) {
    && |r.locks| == |l.locks|
    && forall k :: 0 <= k < |l.locks| ==>
         r.locks[k] == if Doomed(tasks, group, winner, l.locks[k].attemptId) && KnownId(l.attempts, l.locks[k].attemptId)
                       then l.locks[k].(retiring := true) else l.locks[k]
  }

  /** Exactly the locks of retired Attempts retire, and none disappears. */
  lemma {:induction false} LocksRetire(todo: seq<Task>, group: Group, winner: Ref, l: Ledger, newId: nat -> string)
    ensures LocksAs(l, RetireLosers(todo, group, winner, l, newId), todo, group, winner)
    decreases |todo|
  {
    if todo != [] {
      var t := todo[0];
      var hit := IsLoser(t, group, winner) && t.activeAttempt.Some?;
      var l1 := if hit then RetireMatching(l, t.activeAttempt.value, 0, newId) else l;
      if hit { MatchingRetired(l, t.activeAttempt.value, 0, newId); }
      LocksRetire(todo[1..], group, winner, l1, newId);
      forall k | 0 <= k < |l.locks|
        ensures RetireLosers(todo, group, winner, l, newId).locks[k]
             == if Doomed(todo, group, winner, l.locks[k].attemptId) && KnownId(l.attempts, l.locks[k].attemptId)
                then l.locks[k].(retiring := true) else l.locks[k]
      {
        DoomedTail(todo, group, winner, l.locks[k].attemptId);
        SameIds(l.attempts, l1.attempts, l.locks[k].attemptId);
      }
    }
  }

  lemma {:induction false} SameIds(a: seq<Attempt>, b: seq<Attempt>, id: string)
    requires |a| == |b| && forall k :: 0 <= k < |a| ==> b[k].id == a[k].id
    ensures KnownId(a, id) <==> KnownId(b, id)
    ensures KnownId(a, id) <==> HasIdFrom(a, id, 0)
  {
  }

  /** The losers' Attempts, Task by Task, each in list order. */
  function LoserPositions(todo: seq<Task>, group: Group, winner: Ref, attempts: seq<Attempt>): (r: seq<nat>)
    ensures Within(r, |attempts|)
  {
    if todo == [] then []
    else
      (if IsLoser(todo[0], group, winner) && todo[0].activeAttempt.Some? then Positions(attempts, todo[0].activeAttempt.value, 0) else [])
      + LoserPositions(todo[1..], group, winner, attempts)
  }

  lemma {:induction false} SameLoserPositions(todo: seq<Task>, group: Group, winner: Ref, a: seq<Attempt>, b: seq<Attempt>)
    requires |a| == |b| && forall k :: 0 <= k < |a| ==> a[k].id == b[k].id
    ensures LoserPositions(todo, group, winner, a) == LoserPositions(todo, group, winner, b)
    decreases |todo|
  {
    if todo != [] {
      if todo[0].activeAttempt.Some? { SamePositions(a, b, todo[0].activeAttempt.value, 0); }
      SameLoserPositions(todo[1..], group, winner, a, b);
    }
  }

  /** One new cancellation per Attempt of a loser, naming the lease the Attempt held before the commit. */
  lemma {:induction false} RequestsExact(todo: seq<Task>, group: Group, winner: Ref, l: Ledger, newId: nat -> string)
    ensures RetireLosers(todo, group, winner, l, newId).cancellations
         == l.cancellations + RequestsFor(l.attempts, LoserPositions(todo, group, winner, l.attempts), |l.cancellations|, newId)
    decreases |todo|
  {
    if todo != [] {
      var t, rest := todo[0], LoserPositions(todo[1..], group, winner, l.attempts);
      if IsLoser(t, group, winner) && t.activeAttempt.Some? {
        var id := t.activeAttempt.value;
        var l1, mine := RetireMatching(l, id, 0, newId), Positions(l.attempts, id, 0);
        MatchingRequests(l, id, 0, newId);
        RequestsExact(todo[1..], group, winner, l1, newId);
        RetiredNamesSame(l, id, newId);
        SameLoserPositions(todo[1..], group, winner, l.attempts, l1.attempts);
        RequestsFurther(l, l1, RetireLosers(todo[1..], group, winner, l1, newId), mine, rest, newId);
      } else {
        RequestsExact(todo[1..], group, winner, l, newId);
      }
    }
  }

  lemma {:induction false} RetiredNamesSame(l: Ledger, id: string, newId: nat -> string)
    ensures SameNames(l.attempts, RetireMatching(l, id, 0, newId).attempts)
    ensures forall k :: 0 <= k < |l.attempts| ==> RetireMatching(l, id, 0, newId).attempts[k].id == l.attempts[k].id
  {
    MatchingRetired(l, id, 0, newId);
  }

  // ---------------------------------------------------------------- main results

  /** Afterwards the Group is completed with its winner, every child but the winner has ended, Tasks outside the
      Group are untouched, and no Attempt or lock is freed. */
  lemma {:induction false} CommitEndsGroup(s: Rebase.State, group: Group, winner: Task, record: string, newId: nat -> string)
    ensures var s' := Commit(s, group, winner, record, newId);
      && |s'.graph.tasks| == |s.graph.tasks| && |s'.attempts| == |s.attempts| && |s'.locks| == |s.locks|
      && (forall i :: 0 <= i < |s.graph.tasks| ==> TaskAfter(group, winner.AsRef(), s.graph.tasks[i], s'.graph.tasks[i]))
      && (forall k :: 0 <= k < |s.attempts| && Holds(s.attempts[k]) ==> Holds(s'.attempts[k]))
      && (forall k :: 0 <= k < |s.locks| ==> s'.locks[k] == s.locks[k] || s'.locks[k] == s.locks[k].(retiring := true))
      && |s'.graph.groups| == |s.graph.groups|
      && (forall i :: 0 <= i < |s.graph.groups| ==> GroupAfter(group, winner.AsRef(), record, s.graph.groups[i], s'.graph.groups[i]))
      && s' == s.(graph := s.graph.(tasks := s'.graph.tasks, groups := s'.graph.groups),
                  attempts := s'.attempts, locks := s'.locks, cancellations := s'.cancellations)
  {
    var l := Ledger(s.attempts, s.locks, s.cancellations);
    LosersRetired(s.graph.tasks, group, winner.AsRef(), l, newId);
    LocksRetire(s.graph.tasks, group, winner.AsRef(), l, newId);
    forall i | 0 <= i < |s.graph.tasks| ensures TaskAfter(group, winner.AsRef(), s.graph.tasks[i], LostTasks(s.graph.tasks, group, winner.AsRef())[i]) {
      EveryStatus(s.graph.tasks[i].status);
    }
  }

  /** A child that had not ended and is not the winner is cancelled and gives its Attempt up; any other Task is as it
      was. */
  ghost predicate TaskAfter(group: Group, winner: Ref, t: Task, t': Task) {
    if t.AsRef() in ChildRefs(group.children) && t.AsRef() != winner && t.status !in {Completed, Failed, Cancelled} then
      t' == t.(status := Cancelled, activeAttempt := None, failure := t'.failure) && t'.failure.Some?
    else t' == t
  }

  /** The Group is completed with its winner, and keeps the record of a verification that it has; any other Group is
      as it was. */
  ghost predicate GroupAfter(group: Group, winner: Ref, record: string, p: Group, p': Group) {
    if p.AsRef() != group.AsRef() then p' == p
    else
      p' == group.(status := Completed, winner := Some(winner), verification := p'.verification)
      && p'.verification == match group.verification case Some(v) => Some(if v == "" then record else v) case None => Some(record)
  }

  /** When evaluation names the winner that is committed, then every child has ended, the winner stays completed, and
      evaluating the Group again names the same winner. */
  lemma {:induction false} WinnerEndsGroup(s: Rebase.State, group: Group, rejected: seq<Ref>, record: string, newId: nat -> string)
    requires group.join == AnySuccess && UniqueRefs(TaskItems(s.graph.tasks))
    requires Evaluate(group, s.graph, rejected).Some? && Evaluate(group, s.graph, rejected).value.winner.Some?
    ensures var winner := Evaluate(group, s.graph, rejected).value.winner.value;
      var s' := Commit(s, group, winner, record, newId);
      && (forall t :: t in s'.graph.tasks && t.AsRef() in ChildRefs(group.children) ==> !IsOpen(t.status))
      && winner in s'.graph.tasks
      && Evaluate(group, s'.graph, rejected) == Evaluate(group, s.graph, rejected)
  {
    WinnerIff(group, s.graph, rejected);
    var winner := Evaluate(group, s.graph, rejected).value.winner.value;
    ChildrenEnded(s.graph.tasks, group, winner);
    SameWinner(s.graph, Commit(s, group, winner, record, newId).graph, group, rejected, winner.AsRef());
  }

  lemma {:induction false} ChildrenEnded(tasks: seq<Task>, group: Group, winner: Task)
    requires UniqueRefs(TaskItems(tasks)) && winner in tasks && winner.status == Completed
    ensures var tasks' := LostTasks(tasks, group, winner.AsRef());
      winner in tasks' && forall t :: t in tasks' && t.AsRef() in ChildRefs(group.children) ==> !IsOpen(t.status)
  {
    var tasks' := LostTasks(tasks, group, winner.AsRef());
    forall t | t in tasks' && t.AsRef() in ChildRefs(group.children) ensures !IsOpen(t.status) {
      var i :| 0 <= i < |tasks'| && tasks'[i] == t;
      if t.AsRef() == winner.AsRef() { SameRefSameTask(tasks, tasks[i], winner); }
    }
    var k :| 0 <= k < |tasks| && tasks[k] == winner;
    assert tasks'[k] == winner;
  }

  lemma {:induction false} SameWinner(g: Graph, g': Graph, group: Group, rejected: seq<Ref>, winner: Ref)
    requires group.join == AnySuccess && g'.tasks == LostTasks(g.tasks, group, winner)
    requires Evaluate(group, g, rejected).Some? && Evaluate(group, g, rejected).value.winner.Some?
    ensures Evaluate(group, g', rejected) == Evaluate(group, g, rejected)
  {
    SameChildren(g, g', group, winner, group.children);
    SameDone(ChildTasks(g, group.children).value, ChildTasks(g', group.children).value);
  }

  /** The Task as it was, or as a loser. */
  ghost predicate MaybeLost(t: Task, t': Task) {
    t' == t || (t' == Lost(t) && IsOpen(t.status))
  }

  lemma {:induction false} FoundLost(tasks: seq<Task>, group: Group, winner: Ref, ref: Ref)
    ensures var o, o' := FindTask(tasks, ref), FindTask(LostTasks(tasks, group, winner), ref);
      (o.Some? <==> o'.Some?) && (o.Some? ==> MaybeLost(o.value, o'.value))
    decreases |tasks|
  {
    if tasks != [] {
      assert LostTasks(tasks, group, winner)[1..] == LostTasks(tasks[1..], group, winner);
      FoundLost(tasks[1..], group, winner, ref);
    }
  }

  lemma {:induction false} SameChildren(g: Graph, g': Graph, group: Group, winner: Ref, children: seq<Child>)
    requires g'.tasks == LostTasks(g.tasks, group, winner) && ChildTasks(g, children).Some?
    ensures ChildTasks(g', children).Some?
    ensures forall i :: 0 <= i < |children| ==> MaybeLost(ChildTasks(g, children).value[i], ChildTasks(g', children).value[i])
    decreases |children|
  {
    if children != [] {
      FoundLost(g.tasks, group, winner, children[0].task);
      SameChildren(g, g', group, winner, children[1..]);
    }
  }

  lemma {:induction false} SameDone(a: seq<Task>, b: seq<Task>)
    requires |a| == |b| && forall i :: 0 <= i < |a| ==> MaybeLost(a[i], b[i])
    ensures WithStatus(a, IsDone) == WithStatus(b, IsDone)
    decreases |a|
  {
    if a != [] {
      forall i | 0 <= i < |a[1..]| ensures MaybeLost(a[1..][i], b[1..][i]) { assert MaybeLost(a[i + 1], b[i + 1]); }
      SameDone(a[1..], b[1..]);
      assert MaybeLost(a[0], b[0]);
    }
  }

  /** A loser's active Attempt is retiring, and, when Attempt ids and the losers' Attempts are distinct, exactly
      one new request names it, under the lease it held. */
  lemma {:induction false} LoserCancelledOnce(s: Rebase.State, group: Group, winner: Task, record: string, newId: nat -> string, i: nat, k: nat)
    requires i < |s.graph.tasks| && k < |s.attempts| && DoomedBy(s.graph.tasks[i], group, winner.AsRef(), s.attempts[k].id)
    requires forall a, b :: 0 <= a < b < |s.attempts| ==> s.attempts[a].id != s.attempts[b].id
    requires forall j :: 0 <= j < |s.graph.tasks| && j != i ==> !DoomedBy(s.graph.tasks[j], group, winner.AsRef(), s.attempts[k].id)
    ensures var s' := Commit(s, group, winner, record, newId);
      && s'.attempts[k].lease.retiring && s'.attempts[k].status == AttemptCancelled
      && CancelledOnce(s.cancellations, s'.cancellations, s.attempts[k])
  {
    var l, w, id := Ledger(s.attempts, s.locks, s.cancellations), winner.AsRef(), s.attempts[k].id;
    LosersRetired(s.graph.tasks, group, w, l, newId);
    assert Doomed(s.graph.tasks, group, w, id);
    RequestsExact(s.graph.tasks, group, w, l, newId);
    var positions := LoserPositions(s.graph.tasks, group, w, s.attempts);
    var at := OnePosition(s.graph.tasks, group, w, s.attempts, i, k);
    OneRequest(s, positions, at, k, newId);
  }

  lemma {:induction false} OneRequest(s: Rebase.State, positions: seq<nat>, at: nat, k: nat, newId: nat -> string)
    requires Within(positions, |s.attempts|) && at < |positions| && positions[at] == k
    requires forall m :: 0 <= m < |positions| && positions[m] == k ==> m == at
    requires forall a, b :: 0 <= a < b < |s.attempts| ==> s.attempts[a].id != s.attempts[b].id
    ensures CancelledOnce(s.cancellations, s.cancellations + RequestsFor(s.attempts, positions, |s.cancellations|, newId), s.attempts[k])
  {
    var news := RequestsFor(s.attempts, positions, |s.cancellations|, newId);
    var after, n := s.cancellations + news, |s.cancellations| + at;
    assert after[n] == news[at];
    forall m | |s.cancellations| <= m < |after| && after[m].attemptId == s.attempts[k].id ensures m == n {
      var p := m - |s.cancellations|;
      assert after[m] == news[p];
    }
  }

  /** Exactly one of the new requests names this Attempt, under the lease it held. */
  ghost predicate CancelledOnce(before: seq<Cancellation>, after: seq<Cancellation>, a: Attempt) {
    && before <= after
    && exists n :: |before| <= n < |after| && NamesLease(after[n], a)
         && forall m :: |before| <= m < |after| && after[m].attemptId == a.id ==> m == n
  }

  ghost predicate NamesLease(c: Cancellation, a: Attempt) {
    c.attemptId == a.id && c.epoch == a.lease.epoch && c.token == a.lease.token && !c.acknowledged
  }

  /** With distinct ids the loser's Attempt occurs once among the cancelled positions. */
  lemma {:induction false} OnePosition(todo: seq<Task>, group: Group, winner: Ref, attempts: seq<Attempt>, i: nat, k: nat) returns (at: nat)
    requires i < |todo| && k < |attempts| && DoomedBy(todo[i], group, winner, attempts[k].id)
    requires forall a, b :: 0 <= a < b < |attempts| ==> attempts[a].id != attempts[b].id
    requires forall j :: 0 <= j < |todo| && j != i ==> !DoomedBy(todo[j], group, winner, attempts[k].id)
    ensures var r := LoserPositions(todo, group, winner, attempts);
      at < |r| && r[at] == k && forall m :: 0 <= m < |r| && r[m] == k ==> m == at
    decreases |todo|
  {
    var t := todo[0];
    var mine := if IsLoser(t, group, winner) && t.activeAttempt.Some? then Positions(attempts, t.activeAttempt.value, 0) else [];
    var rest := LoserPositions(todo[1..], group, winner, attempts);
    if i == 0 {
      forall j | 0 <= j < |todo[1..]| ensures !DoomedBy(todo[1..][j], group, winner, attempts[k].id) { assert todo[1..][j] == todo[j + 1]; }
      NotAPosition(todo[1..], group, winner, attempts, k);
      OnlyPosition(attempts, k, 0);
      at := 0;
    } else {
      forall j | 0 <= j < |todo[1..]| && j != i - 1 ensures !DoomedBy(todo[1..][j], group, winner, attempts[k].id) { assert todo[1..][j] == todo[j + 1]; }
      assert todo[1..][i - 1] == todo[i];
      var sub := OnePosition(todo[1..], group, winner, attempts, i - 1, k);
      assert k !in mine;
      at := |mine| + sub;
    }
  }

  lemma {:induction false} NotAPosition(todo: seq<Task>, group: Group, winner: Ref, attempts: seq<Attempt>, k: nat)
    requires k < |attempts| && forall j :: 0 <= j < |todo| ==> !DoomedBy(todo[j], group, winner, attempts[k].id)
    ensures k !in LoserPositions(todo, group, winner, attempts)
    decreases |todo|
  {
    if todo != [] {
      forall j | 0 <= j < |todo[1..]| ensures !DoomedBy(todo[1..][j], group, winner, attempts[k].id) { assert todo[1..][j] == todo[j + 1]; }
      NotAPosition(todo[1..], group, winner, attempts, k);
    }
  }

  lemma {:induction false} OnlyPosition(attempts: seq<Attempt>, k: nat, i: nat)
    requires i <= k < |attempts| && forall a, b :: 0 <= a < b < |attempts| ==> attempts[a].id != attempts[b].id
    ensures Positions(attempts, attempts[k].id, i) == [k]
    decreases |attempts| - i
  {
    if i < k { OnlyPosition(attempts, k, i + 1); }
    else {
      var rest := Positions(attempts, attempts[k].id, i + 1);
      SomeMember(rest);
    }
  }

  /** Committing the same winner again changes nothing: no new cancellation, no new retirement. */
  lemma {:induction false} CommitTwice(s: Rebase.State, group: Group, winner: Task, record: string, newId: nat -> string)
    ensures var s' := Commit(s, group, winner, record, newId); Commit(s', group, winner, record, newId) == s'
  {
    var s', w := Commit(s, group, winner, record, newId), winner.AsRef();
    var l := Ledger(s'.attempts, s'.locks, s'.cancellations);
    forall i | 0 <= i < |s'.graph.tasks| ensures !IsLoser(s'.graph.tasks[i], group, w) {}
    NoLosers(s'.graph.tasks, group, w, l, newId);
    assert LostTasks(s'.graph.tasks, group, w) == s'.graph.tasks;
    assert Commit(s', group, winner, record, newId).graph.groups == s'.graph.groups;
  }

  lemma {:induction false} NoLosers(todo: seq<Task>, group: Group, winner: Ref, l: Ledger, newId: nat -> string)
    requires forall i :: 0 <= i < |todo| ==> !IsLoser(todo[i], group, winner)
    ensures RetireLosers(todo, group, winner, l, newId) == l
    decreases |todo|
  {
    if todo != [] {
      assert !IsLoser(todo[0], group, winner);
      NoLosers(todo[1..], group, winner, l, newId);
    }
  }
}
