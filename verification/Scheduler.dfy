/** First-fit scheduling of ready Tasks (`schedule_ready_tasks`). */
module Scheduler {
  import opened Core
  import opened Order
  import opened Attempts
  import opened Paths
  import opened Resources
  import R = Ready

  datatype Policy = Policy(maxConcurrency: int, perTemplate: map<string, int>)

  datatype BlockReason = GlobalLimit | TemplateLimit | ResourceConflict

  datatype Blocked = Blocked(task: Ref, reason: BlockReason, holders: seq<string>)

  datatype Batch = Batch(selected: seq<Task>, blocked: seq<Blocked>, occupied: nat)

  /** A graph that does not validate, or a resource path that is not absolute. */
  datatype ScheduleError = InvalidGraph(error: GraphError) | InvalidPath

  /** What one batch is derived from: the Attempts, the limits and the paths each Task asks for. */
  datatype Context = Context(attempts: seq<Attempt>, limit: int, perTemplate: map<string, int>, resources: map<Ref, seq<string>>)

  function Occupied(attempts: seq<Attempt>): nat {
    Count(attempts, Holds)
  }

  function HoldsFor(template: string): Attempt -> bool {
    a => Holds(a) && a.binding.id == template
  }

  function HoldingOf(attempts: seq<Attempt>, template: string): nat {
    Count(attempts, HoldsFor(template))
  }

  function TemplateOf(t: Task): string { t.policy.preferred.id }

  function RunsOn(template: string): Task -> bool {
    t => TemplateOf(t) == template
  }

  function SelectedOf(selected: seq<Task>, template: string): nat {
    Count(selected, RunsOn(template))
  }

  function PathsOf(c: Context, t: Task): seq<string> {
    if t.AsRef() in c.resources then c.resources[t.AsRef()] else []
  }

  predicate ClaimConflict(requested: seq<string>, claimed: seq<seq<string>>) {
    exists i :: 0 <= i < |claimed| && SetsConflict(requested, claimed[i]) == Ok(true)
  }

  function HolderIds(conflicts: seq<Conflict>): seq<string> {
    Sort(Distinct(Holders(conflicts)), LessEq)
  }

  function Holders(conflicts: seq<Conflict>): seq<string> {
    seq(|conflicts|, i requires 0 <= i < |conflicts| => conflicts[i].holder)
  }

  datatype Verdict = Fits(requested: seq<string>) | Stop(reason: BlockReason, holders: seq<string>) | BadPath

  /** The three limits, in the source's order, against what is held and what was selected before. */
  function Consider(c: Context, t: Task, selected: seq<Task>, claimed: seq<seq<string>>): Verdict {
    if Occupied(c.attempts) + |selected| >= c.limit then Stop(GlobalLimit, [])
    else if AtTemplateLimit(c, TemplateOf(t), selected) then Stop(TemplateLimit, [])
    else ConsiderPaths(c, PathsOf(c, t), claimed)
  }

  predicate AtTemplateLimit(c: Context, template: string, selected: seq<Task>) {
    template in c.perTemplate && HoldingOf(c.attempts, template) + SelectedOf(selected, template) >= c.perTemplate[template]
  }

  function ConsiderPaths(c: Context, paths: seq<string>, claimed: seq<seq<string>>): Verdict {
    match CanonicalPaths(paths)
    case Err(_) => BadPath
    case Ok(requested) =>
      match ExclusiveConflicts(requested, c.attempts)
      case Err(_) => BadPath
      case Ok(conflicts) =>
        if conflicts != [] || ClaimConflict(requested, claimed) then Stop(ResourceConflict, HolderIds(conflicts))
        else Fits(requested)
  }

  /** The lists the loop appends to. */
  datatype Chosen = Chosen(selected: seq<Task>, claimed: seq<seq<string>>, blocked: seq<Blocked>)

  function ScheduleFrom(c: Context, todo: seq<Task>, so: Chosen): Result<Chosen, ScheduleError>
    decreases |todo|
  {
    if todo == [] then Ok(so)
    else
      match Consider(c, todo[0], so.selected, so.claimed)
      case BadPath => Err(InvalidPath)
      case Stop(reason, holders) => ScheduleFrom(c, todo[1..], so.(blocked := so.blocked + [Blocked(todo[0].AsRef(), reason, holders)]))
      case Fits(requested) => ScheduleFrom(c, todo[1..], so.(selected := so.selected + [todo[0]], claimed := so.claimed + [requested]))
  }

  /** The ready Tasks in the order the scheduler takes them. */
  predicate TakeBefore(a: Task, b: Task) {
    || a.priority > b.priority
    || (a.priority == b.priority
        && ((a.required && !b.required)
            || (a.required == b.required && LessEq(a.id, b.id) && (a.id == b.id ==> a.revision <= b.revision))))
  }

  function DeterministicReady(g: Graph): Result<seq<Task>, GraphError> {
    match R.ReadyTasks(g)
    case Err(e) => Err(e)
    case Ok(tasks) => Ok(Sort(tasks, TakeBefore))
  }

  function GlobalLimitOf(g: Graph, p: Policy): int {
    if p.maxConcurrency < g.limits.maxConcurrency then p.maxConcurrency else g.limits.maxConcurrency
  }

  function Schedule(g: Graph, attempts: seq<Attempt>, p: Policy, resources: map<Ref, seq<string>>): Result<Batch, ScheduleError> {
    match DeterministicReady(g)
    case Err(e) => Err(InvalidGraph(e))
    case Ok(ready) =>
      match ScheduleFrom(Context(attempts, GlobalLimitOf(g, p), p.perTemplate, resources), ready, Chosen([], [], []))
      case Err(e) => Err(e)
      case Ok(so) => Ok(Batch(so.selected, so.blocked, Occupied(attempts)))
  }

  // ---------------------------------------------------------------- the source's loop

  /** Python's `Counter`: absent means zero. */
  function Tally(counts: map<string, nat>, template: string): nat {
    if template in counts then counts[template] else 0
  }

  method CountTemplates(attempts: seq<Attempt>) returns (counts: map<string, nat>)
    ensures forall template :: Tally(counts, template) == HoldingOf(attempts, template)
  {
    counts := map[];
    for i := 0 to |attempts|
      invariant forall template :: Tally(counts, template) == HoldingOf(attempts[..i], template)
    {
      var a := attempts[i];
      assert attempts[..i + 1] == attempts[..i] + [a];
      forall template ensures HoldingOf(attempts[..i + 1], template) == HoldingOf(attempts[..i], template) + if HoldsFor(template)(a) then 1 else 0 {
        HoldingSnoc(attempts[..i], a, template);
      }
      if Holds(a) { counts := counts[a.binding.id := Tally(counts, a.binding.id) + 1]; }
    }
    assert attempts[..|attempts|] == attempts;
  }

  lemma {:induction false} HoldingSnoc(attempts: seq<Attempt>, a: Attempt, template: string)
    ensures HoldingOf(attempts + [a], template) == HoldingOf(attempts, template) + if HoldsFor(template)(a) then 1 else 0
  {
    CountConcat(attempts, [a], HoldsFor(template));
    assert [a][1..] == [];
  }

  lemma {:induction false} SelectedSnoc(selected: seq<Task>, t: Task, template: string)
    ensures SelectedOf(selected + [t], template) == SelectedOf(selected, template) + if TemplateOf(t) == template then 1 else 0
  {
    CountConcat(selected, [t], RunsOn(template));
    assert [t][1..] == [];
  }

  /** The counter agrees with what is held and selected. */
  ghost predicate Counted(c: Context, counts: map<string, nat>, selected: seq<Task>) {
    forall template :: Tally(counts, template) == HoldingOf(c.attempts, template) + SelectedOf(selected, template)
  }

  method ConsiderTask(c: Context, t: Task, occupied: nat, counts: map<string, nat>, selected: seq<Task>, claimed: seq<seq<string>>)
    returns (verdict: Verdict)
    requires occupied == Occupied(c.attempts) && Counted(c, counts, selected)
    ensures verdict == Consider(c, t, selected, claimed)
  {
    if occupied + |selected| >= c.limit { return Stop(GlobalLimit, []); }
    var template := TemplateOf(t);
    if template in c.perTemplate && Tally(counts, template) >= c.perTemplate[template] { return Stop(TemplateLimit, []); }
    return ConsiderPaths(c, PathsOf(c, t), claimed);
  }

  method ScheduleReadyTasks(g: Graph, attempts: seq<Attempt>, p: Policy, resources: map<Ref, seq<string>>)
    returns (result: Result<Batch, ScheduleError>)
    ensures result == Schedule(g, attempts, p, resources)
  {
    var occupied := Occupied(attempts);
    var counts := CountTemplates(attempts);
    var ready := DeterministicReady(g);
    if ready.Err? { return Err(InvalidGraph(ready.error)); }
    var tasks, c := ready.value, Context(attempts, GlobalLimitOf(g, p), p.perTemplate, resources);
    var so := Chosen([], [], []);
    for i := 0 to |tasks|
      invariant ScheduleFrom(c, tasks[i..], so) == ScheduleFrom(c, tasks, Chosen([], [], []))
      invariant Counted(c, counts, so.selected)
    {
      var t := tasks[i];
      assert tasks[i..][0] == t && tasks[i..][1..] == tasks[i + 1..];
      var verdict := ConsiderTask(c, t, occupied, counts, so.selected, so.claimed);
      match verdict {
        case BadPath => return Err(InvalidPath);
        case Stop(reason, holders) => so := so.(blocked := so.blocked + [Blocked(t.AsRef(), reason, holders)]);
        case Fits(requested) =>
          CountedSnoc(c, counts, so.selected, t);
          counts := counts[TemplateOf(t) := Tally(counts, TemplateOf(t)) + 1];
          so := so.(selected := so.selected + [t], claimed := so.claimed + [requested]);
      }
    }
    return Ok(Batch(so.selected, so.blocked, occupied));
  }

  lemma {:induction false} CountedSnoc(c: Context, counts: map<string, nat>, selected: seq<Task>, t: Task)
    requires Counted(c, counts, selected)
    ensures Counted(c, counts[TemplateOf(t) := Tally(counts, TemplateOf(t)) + 1], selected + [t])
  {
    forall other ensures SelectedOf(selected + [t], other) == SelectedOf(selected, other) + if TemplateOf(t) == other then 1 else 0 {
      SelectedSnoc(selected, t, other);
    }
  }
}
