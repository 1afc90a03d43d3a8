/** The validation that every accepted graph has passed (`validate_graph`), check by check in the source's
    order, and what it means for the graph as a whole. */
module Validation {
  import opened Core
  import opened Items
  import opened Acyclic

  /** The item a reference names, active or not (`_resolve_ref`). */
  function Resolve(g: Graph, ref: Ref): (o: Option<Item>)
    ensures o.Some? ==> o.value.AsRef() == ref && o.value in AllItems(g)
    ensures o.None? ==> forall m :: m in AllItems(g) ==> m.AsRef() != ref
  {
    FindItem(AllItems(g), ref)
  }

  function AllItems(g: Graph): seq<Item> {
    TaskItems(g.tasks) + GroupItems(g.groups)
  }

  /** The items with the listed active references, or the first problem with one of those. */
  function ResolveActive(items: seq<Item>, active: seq<Ref>, seen: set<Ref>, invalid: GraphError): Result<seq<Item>, GraphError> {
    if active == [] then Ok([])
    else
      match FindItem(items, active[0])
      case None => Err(invalid)
      case Some(m) =>
        if active[0] in seen then Err(RepeatedActive)
        else
          match ResolveActive(items, active[1..], seen + {active[0]}, invalid)
          case Err(e) => Err(e)
          case Ok(rest) => Ok([m] + rest)
  }

  predicate AllResolve(g: Graph, refs: seq<Ref>) {
    forall i :: 0 <= i < |refs| ==> Resolve(g, refs[i]).Some?
  }

  function TaskProblem(g: Graph, t: Task): Option<GraphError> {
    if t.graphId != g.id then Some(ForeignTask)
    else if t.required && t.supports == [] then Some(UnsupportedRequired)
    else if !(0 <= t.priority <= 100) then Some(BadPriority)
    else if t.policy.preferred !in t.policy.allowed then Some(BadPreferredExecutor)
    else if !AllResolve(g, t.dependsOn) then Some(UnknownReference)
    else None
  }

  function ChildrenProblem(g: Graph, children: seq<Child>): Option<GraphError> {
    if children == [] then None
    else if children[0].task.kind != TaskKind then Some(ChildNotTask)
    else if Resolve(g, children[0].task).None? then Some(UnknownReference)
    else ChildrenProblem(g, children[1..])
  }

  function GroupProblem(g: Graph, group: Group): Option<GraphError> {
    if group.graphId != g.id then Some(ForeignGroup)
    else if group.required && group.supports == [] then Some(UnsupportedRequired)
    else if group.children == [] then Some(NoChildren)
    else if !AllResolve(g, group.dependsOn) then Some(UnknownReference)
    else ChildrenProblem(g, group.children)
  }

  function FirstTaskProblem(g: Graph, tasks: seq<Task>): Option<GraphError> {
    if tasks == [] then None
    else
      var p := TaskProblem(g, tasks[0]);
      if p.Some? then p else FirstTaskProblem(g, tasks[1..])
  }

  function FirstGroupProblem(g: Graph, groups: seq<Group>): Option<GraphError> {
    if groups == [] then None
    else
      var p := GroupProblem(g, groups[0]);
      if p.Some? then p else FirstGroupProblem(g, groups[1..])
  }

  function Supports(m: Item): seq<string> {
    match m
    case TaskItem(t) => t.supports
    case GroupItem(group) => group.supports
  }

  function Binding(m: Item): BindingState {
    match m
    case TaskItem(t) => t.bindingState
    case GroupItem(group) => group.bindingState
  }

  /** The criteria that active items support, those of invalidated items apart. */
  function CoveredCriteria(live: seq<Item>): set<string> {
    if live == [] then {}
    else (if Binding(live[0]) in {Current, Retained} then (set c | c in Supports(live[0])) else {}) + CoveredCriteria(live[1..])
  }

  function Among(refs: seq<Ref>, keys: set<Ref>): (r: seq<Ref>)
    ensures forall d :: d in r <==> d in refs && d in keys
  {
    if refs == [] then []
    else (if refs[0] in keys then [refs[0]] else []) + Among(refs[1..], keys)
  }

  /** Each active item's mentions of active items. */
  function EdgesOf(live: seq<Item>): (edges: Edges)
    ensures Closed(edges) && forall k :: k in edges <==> k in RefsOf(live)
  {
    var keys := Elements(RefsOf(live));
    map k | k in keys :: match FindItem(live, k) case Some(m) => Among(m.Mentions(), keys) case None => []
  }

  /** The first check the graph fails, or none. */
  function Problem(g: Graph, allowIncomplete: bool): Option<GraphError> {
    if !UniqueRefs(TaskItems(g.tasks)) then Some(DuplicateTask)
    else if !UniqueRefs(GroupItems(g.groups)) then Some(DuplicateGroup)
    else
      match ResolveActive(TaskItems(g.tasks), g.activeTasks, {}, InvalidActiveTask)
      case Err(e) => Some(e)
      case Ok(tasks) =>
        match ResolveActive(GroupItems(g.groups), g.activeGroups, {}, InvalidActiveGroup)
        case Err(e) => Some(e)
        case Ok(groups) => ContentProblem(g, allowIncomplete, tasks + groups)
  }

  function ContentProblem(g: Graph, allowIncomplete: bool, live: seq<Item>): Option<GraphError> {
    if |g.activeTasks| > g.limits.maxTasks then Some(TooManyTasks)
    else if g.replanCount > g.limits.maxReplans then Some(TooManyReplans)
    else
      var t := FirstTaskProblem(g, g.tasks);
      if t.Some? then t
      else
        var p := FirstGroupProblem(g, g.groups);
        if p.Some? then p
        else if !allowIncomplete && (set c | c in g.requiredCriteria) - CoveredCriteria(live) != {} then Some(MissingCoverage)
        else
          match Search(EdgesOf(live), RefsOf(live), g.limits.maxDepth)
          case Err(e) => Some(e)
          case Ok(_) => None
  }

  // ---------------------------------------------------------------- what acceptance means

  predicate ActiveOk(items: seq<Item>, active: seq<Ref>) {
    && (forall i :: 0 <= i < |active| ==> HasRef(items, active[i]))
    && forall i, j :: 0 <= i < j < |active| ==> active[i] != active[j]
  }

  /** Every revision ever listed has its own reference, and the active references are distinct and listed. */
  ghost predicate Shaped(g: Graph) {
    && UniqueRefs(TaskItems(g.tasks)) && UniqueRefs(GroupItems(g.groups))
    && ActiveOk(TaskItems(g.tasks), g.activeTasks) && ActiveOk(GroupItems(g.groups), g.activeGroups)
  }

  ghost predicate TaskSound(g: Graph, t: Task) {
    && t.graphId == g.id && (t.required ==> t.supports != []) && 0 <= t.priority <= 100
    && t.policy.preferred in t.policy.allowed
    && forall d :: d in t.dependsOn ==> HasRef(AllItems(g), d)
  }

  ghost predicate GroupSound(g: Graph, group: Group) {
    && group.graphId == g.id && (group.required ==> group.supports != []) && group.children != []
    && (forall d :: d in group.dependsOn ==> HasRef(AllItems(g), d))
    && forall c :: c in group.children ==> c.task.kind == TaskKind && HasRef(AllItems(g), c.task)
  }

  ghost predicate Sound(g: Graph) {
    && (forall t :: t in g.tasks ==> TaskSound(g, t))
    && (forall group :: group in g.groups ==> GroupSound(g, group))
  }

  /** The active items, Tasks first. */
  ghost function LiveItems(g: Graph): (live: seq<Item>)
    requires Shaped(g)
  {
    Named(TaskItems(g.tasks), g.activeTasks) + Named(GroupItems(g.groups), g.activeGroups)
  }

  ghost function Named(items: seq<Item>, refs: seq<Ref>): (live: seq<Item>)
    requires forall i :: 0 <= i < |refs| ==> HasRef(items, refs[i])
    ensures RefsOf(live) == refs && forall m :: m in live ==> m in items
  {
    seq(|refs|, i requires 0 <= i < |refs| => Lookup(items, refs[i]))
  }

  /** Every required criterion is supported by an active item that the current Intent binds or that was retained. */
  ghost predicate Covered(g: Graph, live: seq<Item>) {
    forall c :: c in g.requiredCriteria ==> SupportedBy(live, c)
  }

  ghost predicate SupportedBy(live: seq<Item>, c: string) {
    exists m :: m in live && Binding(m) != Invalidated && c in Supports(m)
  }

  lemma {:induction false} CoveredMeans(live: seq<Item>, c: string)
    ensures c in CoveredCriteria(live) <==> SupportedBy(live, c)
    decreases |live|
  {
    if live != [] {
      CoveredMeans(live[1..], c);
      assert live == [live[0]] + live[1..];
    }
  }

  lemma {:induction false} CoverageIff(g: Graph, live: seq<Item>)
    ensures (set c | c in g.requiredCriteria) - CoveredCriteria(live) == {} <==> Covered(g, live)
  {
    forall c ensures c in CoveredCriteria(live) <==> SupportedBy(live, c) { CoveredMeans(live, c); }
    if Covered(g, live) {
      assert forall c :: c in g.requiredCriteria ==> c in CoveredCriteria(live);
    } else {
      var c :| c in g.requiredCriteria && !SupportedBy(live, c);
      assert c in (set d | d in g.requiredCriteria) - CoveredCriteria(live);
    }
  }

  /** The checks other than the depth-first search. */
  ghost predicate WellFormed(g: Graph, allowIncomplete: bool) {
    && Shaped(g) && Sound(g)
    && |g.activeTasks| <= g.limits.maxTasks && g.replanCount <= g.limits.maxReplans
    && (!allowIncomplete ==> Covered(g, LiveItems(g)))
  }

  ghost predicate SearchesOk(g: Graph)
    requires Shaped(g)
  {
    Search(EdgesOf(LiveItems(g)), RefsOf(LiveItems(g)), g.limits.maxDepth).Ok?
  }

  /** What `validate_graph` accepts. */
  ghost predicate Valid(g: Graph, allowIncomplete: bool) {
    WellFormed(g, allowIncomplete) && !HasCycle(EdgesOf(LiveItems(g))) && SearchesOk(g)
  }

  lemma {:induction false} FindInUnique(items: seq<Item>, ref: Ref)
    requires UniqueRefs(items) && HasRef(items, ref)
    ensures FindItem(items, ref) == Some(Lookup(items, ref))
  {
  }

  lemma {:induction false} FoundIffListed(items: seq<Item>, ref: Ref)
    ensures FindItem(items, ref).Some? <==> HasRef(items, ref)
  {
  }

  lemma {:induction false} ActiveOkTail(items: seq<Item>, active: seq<Ref>)
    requires active != []
    ensures ActiveOk(items, active) <==> HasRef(items, active[0]) && active[0] !in active[1..] && ActiveOk(items, active[1..])
  {
  }

  lemma {:induction false} ResolvesIff(items: seq<Item>, active: seq<Ref>, seen: set<Ref>, invalid: GraphError)
    ensures ResolveActive(items, active, seen, invalid).Ok? <==> ActiveOk(items, active) && forall ref :: ref in active ==> ref !in seen
    decreases |active|
  {
    if active != [] {
      var head, tail := active[0], active[1..];
      FoundIffListed(items, head);
      ResolvesIff(items, tail, seen + {head}, invalid);
      ActiveOkTail(items, active);
      assert active == [head] + tail;
    }
  }

  lemma {:induction false} ResolvesTo(items: seq<Item>, active: seq<Ref>, seen: set<Ref>, invalid: GraphError)
    requires UniqueRefs(items) && ResolveActive(items, active, seen, invalid).Ok?
    requires forall i :: 0 <= i < |active| ==> HasRef(items, active[i])
    ensures ResolveActive(items, active, seen, invalid).value == Named(items, active)
    decreases |active|
  {
    if active != [] {
      assert HasRef(items, active[0]);
      FindInUnique(items, active[0]);
      forall i | 0 <= i < |active[1..]| ensures HasRef(items, active[1..][i]) { assert active[1..][i] == active[i + 1]; }
      ResolvesTo(items, active[1..], seen + {active[0]}, invalid);
      assert Named(items, active) == [Lookup(items, active[0])] + Named(items, active[1..]);
    }
  }

  lemma {:induction false} ResolveActiveMeans(items: seq<Item>, active: seq<Ref>, invalid: GraphError)
    requires UniqueRefs(items)
    ensures var r := ResolveActive(items, active, {}, invalid);
      (r.Ok? <==> ActiveOk(items, active)) && (r.Ok? ==> r.value == Named(items, active))
  {
    ResolvesIff(items, active, {}, invalid);
    if ActiveOk(items, active) { ResolvesTo(items, active, {}, invalid); }
  }

  lemma {:induction false} AllResolveMeans(g: Graph, refs: seq<Ref>)
    ensures AllResolve(g, refs) <==> forall d :: d in refs ==> HasRef(AllItems(g), d)
  {
    forall d | d in refs ensures Resolve(g, d).Some? <==> HasRef(AllItems(g), d) { FoundIffListed(AllItems(g), d); }
    if AllResolve(g, refs) {
      forall d | d in refs ensures HasRef(AllItems(g), d) {
        var i :| 0 <= i < |refs| && refs[i] == d;
      }
    }
  }

  lemma {:induction false} TasksSoundIff(g: Graph, tasks: seq<Task>)
    ensures FirstTaskProblem(g, tasks).None? <==> forall t :: t in tasks ==> TaskSound(g, t)
    decreases |tasks|
  {
    if tasks != [] {
      AllResolveMeans(g, tasks[0].dependsOn);
      assert TaskProblem(g, tasks[0]).None? <==> TaskSound(g, tasks[0]);
      TasksSoundIff(g, tasks[1..]);
      assert tasks == [tasks[0]] + tasks[1..];
    }
  }

  lemma {:induction false} ChildrenSoundIff(g: Graph, children: seq<Child>)
    ensures ChildrenProblem(g, children).None? <==> forall c :: c in children ==> c.task.kind == TaskKind && HasRef(AllItems(g), c.task)
    decreases |children|
  {
    if children != [] {
      FoundIffListed(AllItems(g), children[0].task);
      ChildrenSoundIff(g, children[1..]);
      assert children == [children[0]] + children[1..];
    }
  }

  lemma {:induction false} GroupsSoundIff(g: Graph, groups: seq<Group>)
    ensures FirstGroupProblem(g, groups).None? <==> forall group :: group in groups ==> GroupSound(g, group)
    decreases |groups|
  {
    if groups != [] {
      AllResolveMeans(g, groups[0].dependsOn);
      ChildrenSoundIff(g, groups[0].children);
      assert GroupProblem(g, groups[0]).None? <==> GroupSound(g, groups[0]);
      GroupsSoundIff(g, groups[1..]);
      assert groups == [groups[0]] + groups[1..];
    }
  }

  lemma {:induction false} ContentIff(g: Graph, allowIncomplete: bool)
    requires Shaped(g)
    ensures ContentProblem(g, allowIncomplete, LiveItems(g)).None? <==> Valid(g, allowIncomplete)
  {
    SoundIff(g);
    CoverageIff(g, LiveItems(g));
    LiveSearchIff(g);
  }

  lemma {:induction false} SoundIff(g: Graph)
    ensures FirstTaskProblem(g, g.tasks).None? && FirstGroupProblem(g, g.groups).None? <==> Sound(g)
  {
    TasksSoundIff(g, g.tasks);
    GroupsSoundIff(g, g.groups);
  }

  lemma {:induction false} LiveSearchIff(g: Graph)
    requires Shaped(g)
    ensures SearchesOk(g) ==> !HasCycle(EdgesOf(LiveItems(g)))
  {
    SearchIsSound(EdgesOf(LiveItems(g)), RefsOf(LiveItems(g)), g.limits.maxDepth);
  }

  /** The lists resolve exactly when they are well shaped. */
  lemma {:induction false} ResolvedIff(g: Graph)
    requires UniqueRefs(TaskItems(g.tasks)) && UniqueRefs(GroupItems(g.groups))
    ensures var ts := ResolveActive(TaskItems(g.tasks), g.activeTasks, {}, InvalidActiveTask);
      var gs := ResolveActive(GroupItems(g.groups), g.activeGroups, {}, InvalidActiveGroup);
      (ts.Ok? && gs.Ok? <==> Shaped(g)) && (ts.Ok? && gs.Ok? ==> ts.value + gs.value == LiveItems(g))
  {
    ResolveActiveMeans(TaskItems(g.tasks), g.activeTasks, InvalidActiveTask);
    ResolveActiveMeans(GroupItems(g.groups), g.activeGroups, InvalidActiveGroup);
  }

  /** The checks together accept exactly the valid graphs. */
  lemma {:induction false} AcceptedIffValid(g: Graph, allowIncomplete: bool)
    ensures Problem(g, allowIncomplete).None? <==> Valid(g, allowIncomplete)
  {
    if UniqueRefs(TaskItems(g.tasks)) && UniqueRefs(GroupItems(g.groups)) {
      ResolvedIff(g);
      if Shaped(g) { ContentIff(g, allowIncomplete); }
    }
  }

  /** In a sound graph every mention of a listed item is listed. */
  lemma {:induction false} MentionListed(g: Graph, m: Item, d: Ref)
    requires Sound(g) && m in AllItems(g) && d in m.Mentions()
    ensures HasRef(AllItems(g), d)
  {
    match m
    case TaskItem(t) => assert TaskSound(g, t);
    case GroupItem(group) => GroupMentionListed(g, group, d);
  }

  lemma {:induction false} GroupMentionListed(g: Graph, group: Group, d: Ref)
    requires GroupSound(g, group) && d in GroupItem(group).Mentions()
    ensures HasRef(AllItems(g), d)
  {
    if d !in group.dependsOn {
      var k :| 0 <= k < |group.children| && group.children[k].task == d;
      assert group.children[k] in group.children;
    }
  }
}
