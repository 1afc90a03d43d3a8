/** Launching child executors at most once: the in-memory backend, and coordinators that load, inspect, start
    and acknowledge in separate steps, crash between them, and race. */
module Dispatch {
  import opened Core
  import opened Text
  import opened Order
  import opened Child

  // ---------------------------------------------------------------- the backend

  datatype ObservationStatus = ObservedRunning | ObservedTerminal | ObservedCancelled | ObservedUncertain

  /** What the backend remembers about a dispatch key: the binding it was started with, and the handle. */
  datatype Observation = Observation(binding: Binding, handle: string, status: ObservationStatus)

  datatype DispatchError = KeyBoundElsewhere | LauncherFailed | InvalidHandle | StaleToken

  /** `launched` lists the dispatch keys whose launcher returned a handle, in order; `calls` lists every call of
      the launcher. */
  datatype Backend = Backend(observations: map<string, Observation>, tokens: map<string, string>, launched: seq<string>, calls: seq<string>)

  /** `outcome` is what the launcher would return: None if it raises. */
  function Start(b: Backend, binding: Binding, outcome: Option<string>): (Backend, Result<Observation, DispatchError>) {
    var key := binding.dispatchKey;
    if key in b.observations then
      (b, if b.observations[key].binding == binding then Ok(b.observations[key]) else Err(KeyBoundElsewhere))
    else
      var called := b.(calls := b.calls + [key]);
      match outcome
      case None => (called, Err(LauncherFailed))
      case Some(handle) =>
        if Blank(handle) then (called, Err(InvalidHandle))
        else
          var o := Observation(binding, handle, ObservedRunning);
          (called.(observations := b.observations[key := o], tokens := b.tokens[key := binding.leaseToken], launched := b.launched + [key]), Ok(o))
  }

  /** None when the key is unknown: there is nothing to cancel. */
  function CancelKey(b: Backend, key: string, token: string): (Backend, Result<Option<Observation>, DispatchError>) {
    if key !in b.observations then (b, Ok(None))
    else if key !in b.tokens || b.tokens[key] != token then (b, Err(StaleToken))
    else
      var o := b.observations[key].(status := ObservedCancelled);
      (b.(observations := b.observations[key := o]), Ok(Some(o)))
  }

  class InMemoryChildExecutorBackend {
    var observations: map<string, Observation>
    var leaseTokens: map<string, string>
    var startCount: nat
    ghost var launched: seq<string>
    ghost var calls: seq<string>

    ghost function State(): Backend reads this { Backend(observations, leaseTokens, launched, calls) }

    ghost predicate Valid() reads this { startCount == |launched| }

    constructor ()
      ensures Valid() && State() == Backend(map[], map[], [], [])
    {
      observations, leaseTokens, startCount := map[], map[], 0;
      launched, calls := [], [];
    }

    method Inspect(key: string) returns (o: Option<Observation>)
      ensures o == if key in observations then Some(observations[key]) else None
    {
      o := if key in observations then Some(observations[key]) else None;
    }

    method StartExecutor(binding: Binding, outcome: Option<string>) returns (r: Result<Observation, DispatchError>)
      requires Valid()
      modifies this
      ensures Valid() && (State(), r) == Start(old(State()), binding, outcome)
    {
      var key := binding.dispatchKey;
      if key in observations {
        if observations[key].binding != binding { return Err(KeyBoundElsewhere); }
        return Ok(observations[key]);
      }
      calls := calls + [key];
      if outcome.None? { return Err(LauncherFailed); }
      if Blank(outcome.value) { return Err(InvalidHandle); }
      var o := Observation(binding, outcome.value, ObservedRunning);
      observations := observations[key := o];
      leaseTokens := leaseTokens[key := binding.leaseToken];
      launched := launched + [key];
      startCount := startCount + 1;
      return Ok(o);
    }

    method CancelExecutor(key: string, token: string) returns (r: Result<Option<Observation>, DispatchError>)
      requires Valid()
      modifies this
      ensures Valid() && (State(), r) == CancelKey(old(State()), key, token)
    {
      if key !in observations { return Ok(None); }
      if key !in leaseTokens || leaseTokens[key] != token { return Err(StaleToken); }
      var o := observations[key].(status := ObservedCancelled);
      observations := observations[key := o];
      return Ok(Some(o));
    }
  }

  // ---------------------------------------------------------------- coordinators

  /** The parts of a child checkpoint that dispatching reads and writes. */
  datatype Checkpoint = Checkpoint(binding: Binding, revision: int, status: ChildStatus, handle: Option<string>)

  /** Where a coordinator is between two of its effects. */
  datatype Place =
    | Idle
    | Loaded(seen: Checkpoint)                         // saw a created checkpoint, about to inspect
    | SawNothing(seen: Checkpoint)                     // about to start
    | Started(seen: Checkpoint, handle: string)        // about to acknowledge
    | Cancelling(seen: Checkpoint)                     // marking an orphan, about to cancel
    | Orphaning(seen: Checkpoint, observed: Option<string>)

  datatype System = System(checkpoints: map<string, Checkpoint>, backend: Backend, places: map<int, Place>)

  datatype Action =
    | CreateCheckpoint(binding: Binding)
    | Load(who: int, binding: Binding)
    | Inspect(who: int)
    | StartIt(who: int, outcome: Option<string>)
    | Acknowledge(who: int)
    | LoadOrphan(who: int, binding: Binding)
    | CancelOrphan(who: int)
    | CommitOrphan(who: int)
    | CancelDirectly(key: string, token: string)
    | Crash(who: int)
    | ChildCommits(ns: string, status: ChildStatus)

  function PlaceOf(s: System, who: int): Place {
    if who in s.places then s.places[who] else Idle
  }

  function Goes(s: System, who: int, place: Place): System {
    s.(places := s.places[who := place])
  }

  predicate Active(status: ChildStatus) { status == ChildRunning || status == ChildWaiting }

  /** A swap of the checkpoint against the revision that was seen; a stale one changes nothing. */
  function Swap(s: System, seen: Checkpoint, status: ChildStatus, handle: Option<string>): System {
    var ns := seen.binding.checkpointNs;
    if ns in s.checkpoints && s.checkpoints[ns].revision == seen.revision then
      s.(checkpoints := s.checkpoints[ns := s.checkpoints[ns].(revision := seen.revision + 1, status := status, handle := handle)])
    else s
  }

  /** The effect of one action. An action that is not enabled, or whose checks fail, leaves the coordinator
      idle. */
  function Next(s: System, a: Action): System {
    match a
    case CreateCheckpoint(binding) =>
      if binding.checkpointNs in s.checkpoints then s
      else s.(checkpoints := s.checkpoints[binding.checkpointNs := Checkpoint(binding, 0, ChildCreated, None)])
    case Load(who, binding) =>
      var ns := binding.checkpointNs;
      if ns in s.checkpoints && s.checkpoints[ns].binding == binding && s.checkpoints[ns].status == ChildCreated
      then Goes(s, who, Loaded(s.checkpoints[ns])) else Goes(s, who, Idle)
    case Inspect(who) => Inspected(s, who)
    case StartIt(who, outcome) => StartedBy(s, who, outcome)
    case Acknowledge(who) =>
      (match PlaceOf(s, who)
       case Started(seen, handle) => Goes(Swap(s, seen, ChildRunning, Some(handle)), who, Idle)
       case _ => s)
    case LoadOrphan(who, binding) =>
      var ns := binding.checkpointNs;
      if ns in s.checkpoints && s.checkpoints[ns].binding == binding && s.checkpoints[ns].status != ChildOrphaned
      then Goes(s, who, Cancelling(s.checkpoints[ns])) else Goes(s, who, Idle)
    case CancelOrphan(who) => CancelledBy(s, who)
    case CommitOrphan(who) =>
      (match PlaceOf(s, who)
       case Orphaning(seen, handle) => Goes(Swap(s, seen, ChildOrphaned, handle), who, Idle)
       case _ => s)
    case CancelDirectly(key, token) => s.(backend := CancelKey(s.backend, key, token).0)
    case Crash(who) => Goes(s, who, Idle)
    case ChildCommits(ns, status) =>
      if ns in s.checkpoints && (Active(status) ==> Active(s.checkpoints[ns].status))
      then s.(checkpoints := s.checkpoints[ns := s.checkpoints[ns].(revision := s.checkpoints[ns].revision + 1, status := status)])
      else s
  }

  function Inspected(s: System, who: int): System {
    match PlaceOf(s, who)
    case Loaded(seen) =>
      var key := seen.binding.dispatchKey;
      if key !in s.backend.observations then Goes(s, who, SawNothing(seen))
      else
        var o := s.backend.observations[key];
        if o.binding == seen.binding && o.status == ObservedRunning then Goes(s, who, Started(seen, o.handle)) else Goes(s, who, Idle)
    case _ => s
  }

  function StartedBy(s: System, who: int, outcome: Option<string>): System {
    match PlaceOf(s, who)
    case SawNothing(seen) =>
      var (backend, r) := Start(s.backend, seen.binding, outcome);
      Goes(s.(backend := backend), who, if r.Ok? && r.value.status == ObservedRunning then Started(seen, r.value.handle) else Idle)
    case _ => s
  }

  function CancelledBy(s: System, who: int): System {
    match PlaceOf(s, who)
    case Cancelling(seen) =>
      var (backend, r) := CancelKey(s.backend, seen.binding.dispatchKey, seen.binding.leaseToken);
      Goes(s.(backend := backend), who,
           match r
           case Err(_) => Idle
           case Ok(None) => Orphaning(seen, None)
           case Ok(Some(o)) => if o.binding == seen.binding then Orphaning(seen, Some(o.handle)) else Idle)
    case _ => s
  }

  function Runs(s: System, actions: seq<Action>): System
    decreases |actions|
  {
    if actions == [] then s else Runs(Next(s, actions[0]), actions[1..])
  }

  // ---------------------------------------------------------------- the backend never launches twice

  function IsKey(key: string): string -> bool {
    k => k == key
  }

  /** Every key was launched once if it has an observation, and never otherwise. */
  ghost predicate BackendOk(b: Backend) {
    && (forall key :: Count(b.launched, IsKey(key)) == if key in b.observations then 1 else 0)
    && (forall key :: key in b.observations ==> b.observations[key].binding.dispatchKey == key)
  }

  /** A key's binding and handle are fixed when it is launched, a cancelled key stays cancelled, and its launcher
      is not called again. */
  ghost predicate Remembers(b: Backend, b': Backend) {
    && b.launched <= b'.launched && b.calls <= b'.calls
    && (forall key :: key in b.observations ==> key in b'.observations && RemembersKey(b.observations[key], b'.observations[key]))
    && (forall key :: key in b.observations ==> Count(b'.calls, IsKey(key)) == Count(b.calls, IsKey(key)))
  }

  predicate RemembersKey(o: Observation, o': Observation) {
    o'.binding == o.binding && o'.handle == o.handle && (o.status == ObservedCancelled ==> o'.status == ObservedCancelled)
  }

  lemma {:induction false} CountSnoc(s: seq<string>, k: string, key: string)
    ensures Count(s + [k], IsKey(key)) == Count(s, IsKey(key)) + if k == key then 1 else 0
  {
    CountConcat(s, [k], IsKey(key));
    assert [k][1..] == [];
  }

  lemma {:induction false} StartOnce(b: Backend, binding: Binding, outcome: Option<string>)
    requires BackendOk(b)
    ensures var (b', r) := Start(b, binding, outcome);
      && BackendOk(b') && Remembers(b, b')
      && (r.Ok? ==> binding.dispatchKey in b'.observations && b'.observations[binding.dispatchKey] == r.value && r.value.binding == binding)
  {
    var key := binding.dispatchKey;
    forall k ensures Count(b.launched + [key], IsKey(k)) == Count(b.launched, IsKey(k)) + if key == k then 1 else 0 { CountSnoc(b.launched, key, k); }
    forall k ensures Count(b.calls + [key], IsKey(k)) == Count(b.calls, IsKey(k)) + if key == k then 1 else 0 { CountSnoc(b.calls, key, k); }
  }

  lemma {:induction false} CancelKeeps(b: Backend, key: string, token: string)
    requires BackendOk(b)
    ensures var (b', r) := CancelKey(b, key, token); BackendOk(b') && Remembers(b, b')
    ensures var (b', r) := CancelKey(b, key, token);
      r.Ok? && r.value.Some? ==> key in b'.observations && b'.observations[key] == r.value.value && r.value.value.status == ObservedCancelled
  {
  }

  // ---------------------------------------------------------------- the system invariant

  /** The checkpoint's handle is the one the backend holds for its binding. */
  ghost predicate Agrees(b: Backend, binding: Binding, handle: string) {
    var key := binding.dispatchKey;
    key in b.observations && b.observations[key].binding == binding && b.observations[key].handle == handle
  }

  ghost predicate CheckpointOk(b: Backend, ns: string, c: Checkpoint) {
    c.binding.checkpointNs == ns && (Active(c.status) ==> c.handle.Some? && Agrees(b, c.binding, c.handle.value))
  }

  /** A coordinator about to acknowledge holds the handle the backend holds, and what it saw is a checkpoint of
      the same binding that has not gone back in revision. */
  ghost predicate PlaceOk(s: System, p: Place) {
    match p
    case Idle => true
    case Loaded(seen) => SeenOk(s, seen)
    case SawNothing(seen) => SeenOk(s, seen)
    case Started(seen, handle) => SeenOk(s, seen) && Agrees(s.backend, seen.binding, handle)
    case Cancelling(seen) => SeenOk(s, seen)
    case Orphaning(seen, handle) => SeenOk(s, seen)
  }

  ghost predicate SeenOk(s: System, seen: Checkpoint) {
    var ns := seen.binding.checkpointNs;
    ns in s.checkpoints && s.checkpoints[ns].binding == seen.binding
  }

  ghost predicate Inv(s: System) {
    && BackendOk(s.backend)
    && (forall ns :: ns in s.checkpoints ==> CheckpointOk(s.backend, ns, s.checkpoints[ns]))
    && (forall who :: who in s.places ==> PlaceOk(s, s.places[who]))
  }

  /** Checkpoints keep their bindings. */
  ghost predicate KeepsBindings(s: System, s': System) {
    forall ns :: ns in s.checkpoints ==> ns in s'.checkpoints && s'.checkpoints[ns].binding == s.checkpoints[ns].binding
  }

  /** A step that changes only one coordinator's place, or one checkpoint, or the backend. */
  lemma {:induction false} InvLater(s: System, s': System, who: int, place: Place)
    requires Inv(s) && KeepsBindings(s, s') && BackendOk(s'.backend) && Remembers(s.backend, s'.backend)
    requires forall ns :: ns in s'.checkpoints ==> CheckpointOk(s'.backend, ns, s'.checkpoints[ns])
    requires s'.places == s.places || s'.places == s.places[who := place]
    requires PlaceOk(s', place)
    ensures Inv(s')
  {
  }

  lemma {:induction false} CheckpointsLater(s: System, b': Backend)
    requires Inv(s) && Remembers(s.backend, b')
    ensures forall ns :: ns in s.checkpoints ==> CheckpointOk(b', ns, s.checkpoints[ns])
  {
  }

  lemma {:induction false} SameBackend(b: Backend)
    ensures Remembers(b, b)
  {
  }

  lemma {:induction false} MovesKeepInv(s: System, who: int, place: Place)
    requires Inv(s) && PlaceOk(s, place)
    ensures Inv(Goes(s, who, place))
  {
  }

  lemma {:induction false} SwapKeepsInv(s: System, seen: Checkpoint, status: ChildStatus, handle: Option<string>)
    requires Inv(s) && SeenOk(s, seen) && (Active(status) ==> handle.Some? && Agrees(s.backend, seen.binding, handle.value))
    ensures Inv(Swap(s, seen, status, handle)) && Swap(s, seen, status, handle).backend == s.backend
  {
  }

  lemma {:induction false} StartKeepsInv(s: System, who: int, outcome: Option<string>)
    requires Inv(s)
    ensures Inv(StartedBy(s, who, outcome)) && Remembers(s.backend, StartedBy(s, who, outcome).backend)
  {
    SameBackend(s.backend);
    if PlaceOf(s, who).SawNothing? {
      var seen := PlaceOf(s, who).seen;
      var (backend, r) := Start(s.backend, seen.binding, outcome);
      assert PlaceOk(s, PlaceOf(s, who));
      StartOnce(s.backend, seen.binding, outcome);
      CheckpointsLater(s, backend);
      var s' := StartedBy(s, who, outcome);
      InvLater(s, s', who, s'.places[who]);
    }
  }

  lemma {:induction false} CancelKeepsInv(s: System, who: int)
    requires Inv(s)
    ensures Inv(CancelledBy(s, who)) && Remembers(s.backend, CancelledBy(s, who).backend)
  {
    SameBackend(s.backend);
    if PlaceOf(s, who).Cancelling? {
      var seen := PlaceOf(s, who).seen;
      assert PlaceOk(s, PlaceOf(s, who));
      CancelKeeps(s.backend, seen.binding.dispatchKey, seen.binding.leaseToken);
      var s' := CancelledBy(s, who);
      CheckpointsLater(s, s'.backend);
      InvLater(s, s', who, s'.places[who]);
    }
  }

  lemma {:induction false} InspectKeepsInv(s: System, who: int)
    requires Inv(s)
    ensures Inv(Inspected(s, who)) && Inspected(s, who).backend == s.backend
  {
  }

  lemma {:induction false} CommitsKeepInv(s: System, a: Action)
    requires Inv(s) && (a.CreateCheckpoint? || a.ChildCommits?)
    ensures Inv(Next(s, a)) && Next(s, a).backend == s.backend
  {
  }

  /** Every action keeps the invariant, and the backend forgets nothing. */
  lemma {:induction false} NextKeepsInv(s: System, a: Action)
    requires Inv(s)
    ensures Inv(Next(s, a)) && Remembers(s.backend, Next(s, a).backend)
  {
    SameBackend(s.backend);
    match a
    case CreateCheckpoint(_) => CommitsKeepInv(s, a);
    case ChildCommits(_, _) => CommitsKeepInv(s, a);
    case Load(who, _) => MovesKeepInv(s, who, Next(s, a).places[who]);
    case LoadOrphan(who, _) => MovesKeepInv(s, who, Next(s, a).places[who]);
    case Inspect(who) => InspectKeepsInv(s, who);
    case StartIt(who, outcome) => StartKeepsInv(s, who, outcome);
    case CancelOrphan(who) => CancelKeepsInv(s, who);
    case Crash(who) => MovesKeepInv(s, who, Idle);
    case CancelDirectly(key, token) =>
      CancelKeeps(s.backend, key, token);
      CheckpointsLater(s, Next(s, a).backend);
      InvLater(s, Next(s, a), 0, Idle);
    case Acknowledge(who) =>
      if PlaceOf(s, who).Started? {
        var p := PlaceOf(s, who);
        assert PlaceOk(s, p);
        SwapKeepsInv(s, p.seen, ChildRunning, Some(p.handle));
        MovesKeepInv(Swap(s, p.seen, ChildRunning, Some(p.handle)), who, Idle);
      }
    case CommitOrphan(who) =>
      if PlaceOf(s, who).Orphaning? {
        var p := PlaceOf(s, who);
        assert PlaceOk(s, p);
        SwapKeepsInv(s, p.seen, ChildOrphaned, p.observed);
        MovesKeepInv(Swap(s, p.seen, ChildOrphaned, p.observed), who, Idle);
      }
  }

  // ---------------------------------------------------------------- main results

  function Initially(): System {
    System(map[], Backend(map[], map[], [], []), map[])
  }

  lemma {:induction false} RunsKeepInv(s: System, actions: seq<Action>)
    requires Inv(s)
    ensures Inv(Runs(s, actions)) && Remembers(s.backend, Runs(s, actions).backend)
    decreases |actions|
  {
    SameBackend(s.backend);
    if actions != [] {
      NextKeepsInv(s, actions[0]);
      RunsKeepInv(Next(s, actions[0]), actions[1..]);
      RemembersThen(s.backend, Next(s, actions[0]).backend, Runs(s, actions).backend);
    }
  }

  lemma {:induction false} RemembersThen(a: Backend, b: Backend, c: Backend)
    requires Remembers(a, b) && Remembers(b, c)
    ensures Remembers(a, c)
  {
  }

  /** After any sequence of actions, crashes and races included, a dispatch key has been launched at most once,
      and a checkpoint that is running holds the handle that the backend holds for its binding. */
  lemma {:induction false} LaunchedAtMostOnce(actions: seq<Action>, key: string)
    ensures var s := Runs(Initially(), actions);
      && Count(s.backend.launched, IsKey(key)) <= 1
      && forall ns :: ns in s.checkpoints && s.checkpoints[ns].status in {ChildRunning, ChildWaiting} ==>
           s.checkpoints[ns].handle.Some? && Agrees(s.backend, s.checkpoints[ns].binding, s.checkpoints[ns].handle.value)
  {
    assert Inv(Initially());
    RunsKeepInv(Initially(), actions);
    var s := Runs(Initially(), actions);
    forall ns | ns in s.checkpoints && s.checkpoints[ns].status in {ChildRunning, ChildWaiting}
      ensures s.checkpoints[ns].handle.Some? && Agrees(s.backend, s.checkpoints[ns].binding, s.checkpoints[ns].handle.value)
    {
      assert CheckpointOk(s.backend, ns, s.checkpoints[ns]);
    }
  }

  /** Once launched, a key keeps its handle and its launcher is never called again; once cancelled, it stays
      cancelled. */
  lemma {:induction false} NeverRestarted(earlier: seq<Action>, later: seq<Action>, key: string)
    requires key in Runs(Initially(), earlier).backend.observations
    ensures var b, b' := Runs(Initially(), earlier).backend, Runs(Runs(Initially(), earlier), later).backend;
      && key in b'.observations
      && b'.observations[key].binding == b.observations[key].binding && b'.observations[key].handle == b.observations[key].handle
      && (b.observations[key].status == ObservedCancelled ==> b'.observations[key].status == ObservedCancelled)
      && Count(b'.launched, IsKey(key)) == Count(b.launched, IsKey(key)) == 1
      && Count(b'.calls, IsKey(key)) == Count(b.calls, IsKey(key))
  {
    assert Inv(Initially());
    RunsKeepInv(Initially(), earlier);
    RunsKeepInv(Runs(Initially(), earlier), later);
  }

  /** A coordinator that crashes after starting leaves the launch to be adopted: another one that then loads and
      inspects gets the same handle, and starts nothing. */
  lemma {:induction false} CrashIsAdopted(s: System, who: int, other: int, outcome: Option<string>)
    requires Inv(s) && PlaceOf(s, who).SawNothing? && PlaceOf(Next(s, StartIt(who, outcome)), who).Started? && who != other
    requires var seen := PlaceOf(s, who).seen; s.checkpoints[seen.binding.checkpointNs].status == ChildCreated
    ensures var seen, s1 := PlaceOf(s, who).seen, Next(s, StartIt(who, outcome));
      var s2 := Runs(s1, [Crash(who), Load(other, seen.binding), Inspect(other)]);
      PlaceOf(s2, other).Started? && PlaceOf(s2, other).handle == PlaceOf(s1, who).handle && s2.backend == s1.backend
  {
    assert PlaceOk(s, PlaceOf(s, who));
    var seen, s1 := PlaceOf(s, who).seen, Next(s, StartIt(who, outcome));
    StartOnce(s.backend, seen.binding, outcome);
    RunsThree(s1, Crash(who), Load(other, seen.binding), Inspect(other));
    var s2 := Next(s1, Crash(who));
    var s3 := Next(s2, Load(other, seen.binding));
    assert PlaceOf(s3, other) == Loaded(s.checkpoints[seen.binding.checkpointNs]) && s3.backend == s1.backend;
  }

  lemma {:induction false} RunsThree(s: System, a: Action, b: Action, c: Action)
    ensures Runs(s, [a, b, c]) == Next(Next(Next(s, a), b), c)
  {
    assert [a, b, c][1..] == [b, c] && [b, c][1..] == [c] && [c][1..] == [];
    assert Runs(Next(s, a), [b, c]) == Runs(Next(Next(s, a), b), [c]);
    assert Runs(Next(Next(s, a), b), [c]) == Runs(Next(Next(Next(s, a), b), c), []);
  }

  /** Two coordinators that both saw nothing race: the first to start launches the child, and the second gets its
      handle without a call of the launcher if its binding is the same, and nothing if it is not. */
  lemma {:induction false} RaceIsAdopted(s: System, who: int, other: int, handle: string, outcome: Option<string>)
    requires PlaceOf(s, who).SawNothing? && PlaceOf(s, other).SawNothing? && who != other && !Blank(handle)
    requires var mine, theirs := PlaceOf(s, who).seen.binding, PlaceOf(s, other).seen.binding;
      mine.dispatchKey == theirs.dispatchKey && mine.dispatchKey !in s.backend.observations
    ensures var mine, theirs := PlaceOf(s, who).seen, PlaceOf(s, other).seen;
      var s1 := Next(s, StartIt(who, Some(handle)));
      var s2 := Next(s1, StartIt(other, outcome));
      && PlaceOf(s1, who) == PlaceOf(s2, who) == Started(mine, handle)
      && PlaceOf(s2, other) == (if theirs.binding == mine.binding then Started(theirs, handle) else Idle)
      && s2.backend == s1.backend && s1.backend.calls == s.backend.calls + [mine.binding.dispatchKey]
      && s1.backend.observations == s.backend.observations[mine.binding.dispatchKey := Observation(mine.binding, handle, ObservedRunning)]
  {
  }

  /** The backend remembers the token under which each key was launched. */
  ghost predicate TokensOk(b: Backend) {
    forall key :: key in b.observations ==> key in b.tokens && b.tokens[key] == b.observations[key].binding.leaseToken
  }

  lemma {:induction false} NextKeepsTokens(s: System, a: Action)
    requires TokensOk(s.backend)
    ensures TokensOk(Next(s, a).backend)
  {
  }

  lemma {:induction false} RunsKeepTokens(s: System, actions: seq<Action>)
    requires TokensOk(s.backend)
    ensures TokensOk(Runs(s, actions).backend)
    decreases |actions|
  {
    if actions != [] {
      NextKeepsTokens(s, actions[0]);
      RunsKeepTokens(Next(s, actions[0]), actions[1..]);
    }
  }

  /** After any run, cancelling a key succeeds exactly under the token of its launch, and then marks it cancelled and
      changes nothing else; under another token it is refused, and a key that was never launched is reported as
      absent, with nothing changed. */
  lemma {:induction false} CancelIff(actions: seq<Action>, key: string, token: string)
    ensures var b := Runs(Initially(), actions).backend;
      var (b', r) := CancelKey(b, key, token);
      if key !in b.observations then b' == b && r == Ok(None)
      else if token != b.observations[key].binding.leaseToken then b' == b && r == Err(StaleToken)
      else
        var o := b.observations[key].(status := ObservedCancelled);
        b' == b.(observations := b.observations[key := o]) && r == Ok(Some(o))
  {
    RunsKeepTokens(Initially(), actions);
  }

  /** Left alone, a coordinator that finds a created checkpoint of an unlaunched key, and whose launcher returns a
      handle, launches the child and sets its checkpoint running with that handle. */
  lemma {:induction false} StartCompletes(s: System, who: int, binding: Binding, handle: string)
    requires binding.checkpointNs in s.checkpoints && binding.dispatchKey !in s.backend.observations && !Blank(handle)
    requires var c := s.checkpoints[binding.checkpointNs]; c.binding == binding && c.status == ChildCreated
    ensures var ns, key := binding.checkpointNs, binding.dispatchKey;
      var s1 := Runs(s, [Load(who, binding), Inspect(who), StartIt(who, Some(handle))]);
      var s2 := Next(s1, Acknowledge(who));
      && s2.checkpoints == s.checkpoints[ns := Checkpoint(binding, s.checkpoints[ns].revision + 1, ChildRunning, Some(handle))]
      && s2.backend.observations == s.backend.observations[key := Observation(binding, handle, ObservedRunning)]
      && s2.backend.calls == s.backend.calls + [key] && PlaceOf(s2, who) == Idle
  {
    RunsThree(s, Load(who, binding), Inspect(who), StartIt(who, Some(handle)));
    var seen := s.checkpoints[binding.checkpointNs];
    var s1 := Next(s, Load(who, binding));
    assert PlaceOf(s1, who) == Loaded(seen);
    var s2 := Next(s1, Inspect(who));
    assert PlaceOf(s2, who) == SawNothing(seen);
    var s3 := Next(s2, StartIt(who, Some(handle)));
    assert PlaceOf(s3, who) == Started(seen, handle);
  }

  /** Left alone, a coordinator that finds no created checkpoint of its binding, or an observation that is not running
      or belongs to another binding, changes nothing. */
  lemma {:induction false} StartRefused(s: System, who: int, binding: Binding, outcome: Option<string>)
    requires PlaceOf(s, who) == Idle
    requires var ns, key := binding.checkpointNs, binding.dispatchKey;
      || ns !in s.checkpoints || s.checkpoints[ns].binding != binding || s.checkpoints[ns].status != ChildCreated
      || (key in s.backend.observations && (s.backend.observations[key].status != ObservedRunning || s.backend.observations[key].binding != binding))
    ensures var s1 := Runs(s, [Load(who, binding), Inspect(who), StartIt(who, outcome)]);
      var s2 := Next(s1, Acknowledge(who));
      s2.checkpoints == s.checkpoints && s2.backend == s.backend
  {
    RunsThree(s, Load(who, binding), Inspect(who), StartIt(who, outcome));
    var s1 := Next(s, Load(who, binding));
    var s2 := Next(s1, Inspect(who));
    assert PlaceOf(s2, who) == Idle && s2.checkpoints == s.checkpoints && s2.backend == s.backend;
  }

  /** Left alone, orphaning a child cancels what is launched under its key, if its token is that of the launch, and marks
      the checkpoint if nothing is launched or what is launched has the same binding. */
  lemma {:induction false} OrphanCompletes(s: System, who: int, binding: Binding)
    requires TokensOk(s.backend) && binding.checkpointNs in s.checkpoints
    requires var c := s.checkpoints[binding.checkpointNs]; c.binding == binding && c.status != ChildOrphaned
    ensures var ns, key, before := binding.checkpointNs, binding.dispatchKey, s.backend.observations;
      var s' := Runs(s, [LoadOrphan(who, binding), CancelOrphan(who), CommitOrphan(who)]);
      var mine := key in before && before[key].binding.leaseToken == binding.leaseToken;
      && s'.backend.observations == (if mine then before[key := before[key].(status := ObservedCancelled)] else before)
      && s'.checkpoints == if key !in before || (mine && before[key].binding == binding)
                           then s.checkpoints[ns := Checkpoint(binding, s.checkpoints[ns].revision + 1, ChildOrphaned,
                                                               if mine then Some(before[key].handle) else None)]
                           else s.checkpoints
  {
    RunsThree(s, LoadOrphan(who, binding), CancelOrphan(who), CommitOrphan(who));
    var seen := s.checkpoints[binding.checkpointNs];
    var s1 := Next(s, LoadOrphan(who, binding));
    assert PlaceOf(s1, who) == Cancelling(seen);
    OrphanCancelled(s1, who, seen);
  }

  lemma {:induction false} OrphanCancelled(s: System, who: int, seen: Checkpoint)
    requires TokensOk(s.backend) && PlaceOf(s, who) == Cancelling(seen)
    ensures var key, before := seen.binding.dispatchKey, s.backend.observations;
      var s', mine := Next(s, CancelOrphan(who)), key in before && before[key].binding.leaseToken == seen.binding.leaseToken;
      && s'.checkpoints == s.checkpoints
      && s'.backend.observations == (if mine then before[key := before[key].(status := ObservedCancelled)] else before)
      && PlaceOf(s', who) == if key !in before then Orphaning(seen, None)
                             else if mine && before[key].binding == seen.binding then Orphaning(seen, Some(before[key].handle))
                             else Idle
  {
  }

  /** And a child whose checkpoint is missing, has another binding, or is orphaned already is left alone. */
  lemma {:induction false} OrphanRefused(s: System, who: int, binding: Binding)
    requires PlaceOf(s, who) == Idle
    requires var ns := binding.checkpointNs;
      ns !in s.checkpoints || s.checkpoints[ns].binding != binding || s.checkpoints[ns].status == ChildOrphaned
    ensures var s' := Runs(s, [LoadOrphan(who, binding), CancelOrphan(who), CommitOrphan(who)]);
      s'.checkpoints == s.checkpoints && s'.backend == s.backend
  {
    RunsThree(s, LoadOrphan(who, binding), CancelOrphan(who), CommitOrphan(who));
    assert PlaceOf(Next(s, LoadOrphan(who, binding)), who) == Idle;
  }

  // ---------------------------------------------------------------- what a coordinator commits over

  /** What was seen is what is there, or an earlier revision of it. */
  ghost predicate SeenEarlier(s: System, seen: Checkpoint) {
    var ns := seen.binding.checkpointNs;
    ns in s.checkpoints && seen.revision <= s.checkpoints[ns].revision && (seen.revision == s.checkpoints[ns].revision ==> seen == s.checkpoints[ns])
  }

  ghost predicate PlaceFits(s: System, p: Place) {
    match p
    case Idle => true
    case Loaded(seen) => SeenEarlier(s, seen) && seen.status == ChildCreated
    case SawNothing(seen) => SeenEarlier(s, seen) && seen.status == ChildCreated
    case Started(seen, _) => SeenEarlier(s, seen) && seen.status == ChildCreated
    case Cancelling(seen) => SeenEarlier(s, seen) && seen.status != ChildOrphaned
    case Orphaning(seen, _) => SeenEarlier(s, seen) && seen.status != ChildOrphaned
  }

  ghost predicate FiledRight(s: System) {
    forall ns :: ns in s.checkpoints ==> s.checkpoints[ns].binding.checkpointNs == ns
  }

  ghost predicate PlacesFit(s: System) {
    FiledRight(s) && forall who :: who in s.places ==> PlaceFits(s, s.places[who])
  }

  /** A checkpoint is new, stays, or moves to its next revision. */
  ghost predicate Advances(s: System, s': System) {
    forall ns :: ns in s.checkpoints ==>
      ns in s'.checkpoints && (s'.checkpoints[ns] == s.checkpoints[ns] || s'.checkpoints[ns].revision > s.checkpoints[ns].revision)
  }

  lemma {:induction false} FitsOn(s: System, s': System, who: int, place: Place)
    requires PlacesFit(s) && FiledRight(s') && Advances(s, s') && PlaceFits(s', place)
    requires s'.places == s.places || s'.places == s.places[who := place]
    ensures PlacesFit(s')
  {
  }

  lemma {:induction false} SwapAdvances(s: System, seen: Checkpoint, status: ChildStatus, handle: Option<string>)
    requires FiledRight(s)
    ensures FiledRight(Swap(s, seen, status, handle)) && Advances(s, Swap(s, seen, status, handle))
  {
  }

  lemma {:induction false} CommitFits(s: System, a: Action)
    requires PlacesFit(s) && (a.Acknowledge? || a.CommitOrphan?)
    ensures PlacesFit(Next(s, a))
  {
    match PlaceOf(s, a.who)
    case Started(seen, handle) =>
      if a.Acknowledge? { SwapAdvances(s, seen, ChildRunning, Some(handle)); FitsOn(s, Next(s, a), a.who, Idle); }
    case Orphaning(seen, handle) =>
      if a.CommitOrphan? { SwapAdvances(s, seen, ChildOrphaned, handle); FitsOn(s, Next(s, a), a.who, Idle); }
    case _ =>
  }

  lemma {:induction false} MoveFits(s: System, a: Action)
    requires PlacesFit(s) && (a.Load? || a.LoadOrphan? || a.Inspect? || a.StartIt? || a.CancelOrphan? || a.Crash?)
    ensures PlacesFit(Next(s, a))
  {
    var s' := Next(s, a);
    assert s'.checkpoints == s.checkpoints;
    if a.who in s.places { assert PlaceFits(s, s.places[a.who]); }
    if a.who in s'.places { FitsOn(s, s', a.who, s'.places[a.who]); }
  }

  lemma {:induction false} NextFits(s: System, a: Action)
    requires PlacesFit(s)
    ensures PlacesFit(Next(s, a))
  {
    match a
    case CreateCheckpoint(_) => FitsOn(s, Next(s, a), 0, Idle);
    case ChildCommits(_, _) => FitsOn(s, Next(s, a), 0, Idle);
    case CancelDirectly(_, _) => FitsOn(s, Next(s, a), 0, Idle);
    case Acknowledge(_) => CommitFits(s, a);
    case CommitOrphan(_) => CommitFits(s, a);
    case _ => MoveFits(s, a);
  }

  lemma {:induction false} RunsFit(s: System, actions: seq<Action>)
    requires PlacesFit(s)
    ensures PlacesFit(Runs(s, actions))
    decreases |actions|
  {
    if actions != [] {
      NextFits(s, actions[0]);
      RunsFit(Next(s, actions[0]), actions[1..]);
    }
  }

  /** After any run, what a coordinator commits replaces exactly the checkpoint that it saw, or nothing if anybody
      committed in between: it sets only a created checkpoint running, and orphans only one that is not. */
  lemma {:induction false} CommitsOverWhatItSaw(actions: seq<Action>, who: int)
    ensures var s := Runs(Initially(), actions);
      match PlaceOf(s, who)
      case Started(seen, handle) =>
        && seen.status == ChildCreated && seen.binding.checkpointNs in s.checkpoints
        && Next(s, Acknowledge(who)).checkpoints ==
           (if s.checkpoints[seen.binding.checkpointNs] == seen
            then s.checkpoints[seen.binding.checkpointNs := Checkpoint(seen.binding, seen.revision + 1, ChildRunning, Some(handle))] else s.checkpoints)
      case Orphaning(seen, handle) =>
        && seen.status != ChildOrphaned && seen.binding.checkpointNs in s.checkpoints
        && Next(s, CommitOrphan(who)).checkpoints ==
           (if s.checkpoints[seen.binding.checkpointNs] == seen
            then s.checkpoints[seen.binding.checkpointNs := Checkpoint(seen.binding, seen.revision + 1, ChildOrphaned, handle)] else s.checkpoints)
      case _ => true
  {
    RunsFit(Initially(), actions);
    var s := Runs(Initially(), actions);
    if who in s.places { assert PlaceFits(s, s.places[who]); }
  }

  // ---------------------------------------------------------------- launchers that fail

  /** The action calls the launcher for this key. */
  predicate CallsFor(s: System, a: Action, key: string) {
    a.StartIt? && PlaceOf(s, a.who).SawNothing? && PlaceOf(s, a.who).seen.binding.dispatchKey == key && key !in s.backend.observations
  }

  predicate Succeeds(outcome: Option<string>) { outcome.Some? && !Blank(outcome.value) }

  /** For every call of the launcher for this key, in order, whether it returned a usable handle. */
  function Outcomes(s: System, actions: seq<Action>, key: string): (r: seq<bool>)
    ensures |r| <= |actions|
    decreases |actions|
  {
    if actions == [] then []
    else
      (if CallsFor(s, actions[0], key) then [Succeeds(actions[0].outcome)] else []) + Outcomes(Next(s, actions[0]), actions[1..], key)
  }

  predicate Launches(success: bool) { success }

  predicate Fails(success: bool) { !success }

  lemma {:induction false} NextCalls(s: System, a: Action, key: string)
    ensures var b, b' := s.backend, Next(s, a).backend;
      && Count(b'.calls, IsKey(key)) == Count(b.calls, IsKey(key)) + (if CallsFor(s, a, key) then 1 else 0)
      && Count(b'.launched, IsKey(key)) == Count(b.launched, IsKey(key)) + (if CallsFor(s, a, key) && Succeeds(a.outcome) then 1 else 0)
      && (key in b'.observations <==> key in b.observations || (CallsFor(s, a, key) && Succeeds(a.outcome)))
  {
    if a.StartIt? && PlaceOf(s, a.who).SawNothing? {
      var k := PlaceOf(s, a.who).seen.binding.dispatchKey;
      CountSnoc(s.backend.calls, k, key);
      CountSnoc(s.backend.launched, k, key);
    }
  }

  lemma {:induction false} RunCalls(s: System, actions: seq<Action>, key: string)
    ensures var b, b', o := s.backend, Runs(s, actions).backend, Outcomes(s, actions, key);
      && Count(b'.calls, IsKey(key)) == Count(b.calls, IsKey(key)) + |o|
      && Count(b'.launched, IsKey(key)) == Count(b.launched, IsKey(key)) + Count(o, Launches)
    decreases |actions|
  {
    if actions != [] {
      var a := actions[0];
      var first := if CallsFor(s, a, key) then [Succeeds(a.outcome)] else [];
      NextCalls(s, a, key);
      RunCalls(Next(s, a), actions[1..], key);
      CountConcat(first, Outcomes(Next(s, a), actions[1..], key), Launches);
      assert first != [] ==> first[1..] == [];
    }
  }

  /** A call that returns a handle is the last one. */
  lemma {:induction false} SuccessIsLast(s: System, actions: seq<Action>, key: string)
    ensures key in s.backend.observations ==> Outcomes(s, actions, key) == []
    ensures forall i :: 0 <= i < |Outcomes(s, actions, key)| - 1 ==> !Outcomes(s, actions, key)[i]
    decreases |actions|
  {
    if actions != [] {
      NextCalls(s, actions[0], key);
      SuccessIsLast(Next(s, actions[0]), actions[1..], key);
    }
  }

  lemma {:induction false} LaunchesAndFailures(o: seq<bool>)
    ensures Count(o, Launches) + Count(o, Fails) == |o|
    decreases |o|
  {
    if o != [] { LaunchesAndFailures(o[1..]); }
  }

  /** Over every run the launcher is called for a key once for its launch, if it was launched, and once for each
      call that failed; and it is called at most once exactly when no call but the last one failed. */
  lemma {:induction false} CalledOnceIff(actions: seq<Action>, key: string)
    ensures var b, o := Runs(Initially(), actions).backend, Outcomes(Initially(), actions, key);
      && Count(b.calls, IsKey(key)) == Count(b.launched, IsKey(key)) + Count(o, Fails)
      && (Count(b.calls, IsKey(key)) <= 1 <==> forall i :: 0 <= i < |o| - 1 ==> o[i])
  {
    var o := Outcomes(Initially(), actions, key);
    RunCalls(Initially(), actions, key);
    LaunchesAndFailures(o);
    SuccessIsLast(Initially(), actions, key);
    if |o| > 1 { assert !o[0]; }
  }

  /** A launcher that raises is called again by the next coordinator that starts. */
  lemma {:induction false} FailingLauncherCalledTwice(binding: Binding)
    ensures var attempt := [Load(1, binding), Inspect(1), StartIt(1, None)];
      var s := Runs(Runs(Next(Initially(), CreateCheckpoint(binding)), attempt), attempt);
      s.backend.calls == [binding.dispatchKey, binding.dispatchKey] && s.backend.launched == []
  {
    var s0 := Next(Initially(), CreateCheckpoint(binding));
    FailedAttempt(s0, binding);
    FailedAttempt(Runs(s0, [Load(1, binding), Inspect(1), StartIt(1, None)]), binding);
  }

  lemma {:induction false} FailedAttempt(s: System, binding: Binding)
    requires binding.checkpointNs in s.checkpoints && s.checkpoints[binding.checkpointNs] == Checkpoint(binding, 0, ChildCreated, None)
    requires binding.dispatchKey !in s.backend.observations
    ensures var s' := Runs(s, [Load(1, binding), Inspect(1), StartIt(1, None)]);
      s'.checkpoints == s.checkpoints && s'.backend == s.backend.(calls := s.backend.calls + [binding.dispatchKey])
  {
    RunsThree(s, Load(1, binding), Inspect(1), StartIt(1, None));
    var seen := s.checkpoints[binding.checkpointNs];
    var s1 := Next(s, Load(1, binding));
    assert PlaceOf(s1, 1) == Loaded(seen);
    var s2 := Next(s1, Inspect(1));
    assert PlaceOf(s2, 1) == SawNothing(seen);
  }
}
