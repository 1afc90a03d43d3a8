/** An Intent rebase renames the live graph: the graph it builds is isomorphic to the old one, and valid exactly
    when no two invalidated items share a logical id. */
module RebaseValid {
  import opened Core
  import opened Items
  import opened Acyclic
  import opened AcyclicRenaming
  import opened Validation
  import opened Attempts
  import opened Closure
  import opened Rebase
  import opened RebaseLanes
  import opened RebaseProofs
  import R = Ready

  ghost function SettledItem(decisions: seq<Decision>, m: Item): Item {
    match m
    case TaskItem(t) => TaskItem(SettledTask(t, decisions))
    case GroupItem(group) => GroupItem(SettledGroup(group, decisions))
  }

  /** The plan was made for this well-shaped graph; `replaced` is what it invalidates. */
  ghost predicate Planned(s: State, intent: Intent, proofs: map<Ref, Proof>, plan: Plan, replaced: set<Ref>) {
    Shaped(s.graph) && PlannedWith(s, intent, proofs, plan) && replaced == ReplacedSet(LiveItems(s.graph), proofs, intent)
  }

  ghost predicate Unambiguous(g: Graph, replaced: set<Ref>)
    requires Shaped(g)
  {
    DistinctIds(LiveTasks(g), replaced) && DistinctIds(LiveGroups(g), replaced)
  }

  // ---------------------------------------------------------------- shape

  lemma {:induction false} NamedKinds(g: Graph)
    requires Shaped(g)
    ensures (forall m :: m in LiveTasks(g) ==> m.TaskItem?) && (forall m :: m in LiveGroups(g) ==> m.GroupItem?)
    ensures LiveItems(g) == LiveTasks(g) + LiveGroups(g)
  {
  }

  lemma {:induction false} LanesReady(g: Graph, decisions: seq<Decision>)
    requires Shaped(g)
    ensures var settle := m => SettledItem(decisions, m);
      LaneReady(g, settle, TaskItems(g.tasks), g.activeTasks) && LaneReady(g, settle, GroupItems(g.groups), g.activeGroups)
  {
  }

  lemma {:induction false} LanesRebased(s: State, intent: Intent, proofs: map<Ref, Proof>, plan: Plan, replaced: set<Ref>)
    requires Planned(s, intent, proofs, plan, replaced)
    ensures var g, g' := s.graph, RebasedGraph(s.graph, plan); var settle := m => SettledItem(plan.decisions, m);
      && TaskItems(g'.tasks) == RebasedItems(g, replaced, settle, TaskItems(g.tasks), LiveTasks(g), intent)
      && GroupItems(g'.groups) == RebasedItems(g, replaced, settle, GroupItems(g.groups), LiveGroups(g), intent)
      && g'.activeTasks == RenamedAll(g, replaced, g.activeTasks) && g'.activeGroups == RenamedAll(g, replaced, g.activeGroups)
  {
    var g := s.graph;
    NamedKinds(g);
    ReplacedTaskItems(g, replaced, LiveTasks(g), intent);
    ReplacedGroupItems(g, replaced, LiveGroups(g), intent);
    AppendItems(g, plan);
  }

  lemma {:induction false} AppendItems(g: Graph, plan: Plan)
    ensures var g' := RebasedGraph(g, plan); var settle := m => SettledItem(plan.decisions, m);
      && TaskItems(g'.tasks) == MapItems(settle, TaskItems(g.tasks)) + TaskItems(plan.appendedTasks)
      && GroupItems(g'.groups) == MapItems(settle, GroupItems(g.groups)) + GroupItems(plan.appendedGroups)
  {
  }

  /** The rebased graph is well shaped exactly when the replaced items have distinct logical ids; then its
      live items are what the old ones became, in the same order. */
  lemma {:induction false} ShapedIff(s: State, intent: Intent, proofs: map<Ref, Proof>, plan: Plan, replaced: set<Ref>)
    requires Planned(s, intent, proofs, plan, replaced)
    ensures Shaped(RebasedGraph(s.graph, plan)) <==> Unambiguous(s.graph, replaced)
    ensures Shaped(RebasedGraph(s.graph, plan)) ==> LiveBecame(s.graph, RebasedGraph(s.graph, plan), replaced, plan.decisions, intent)
  {
    var g, g' := s.graph, RebasedGraph(s.graph, plan);
    var settle := m => SettledItem(plan.decisions, m);
    LanesRebased(s, intent, proofs, plan, replaced);
    LanesReady(g, plan.decisions);
    RebasedLive(g, replaced, settle, TaskItems(g.tasks), g.activeTasks, intent);
    RebasedLive(g, replaced, settle, GroupItems(g.groups), g.activeGroups, intent);
    if Unambiguous(g, replaced) {
      RebasedUnique(g, replaced, settle, TaskItems(g.tasks), g.activeTasks, intent);
      RebasedUnique(g, replaced, settle, GroupItems(g.groups), g.activeGroups, intent);
    }
  }

  ghost predicate LiveBecame(g: Graph, g': Graph, replaced: set<Ref>, decisions: seq<Decision>, intent: Intent)
    requires Shaped(g) && Shaped(g')
  {
    && |LiveItems(g')| == |LiveItems(g)|
    && forall i :: 0 <= i < |LiveItems(g)| ==>
         LiveItems(g')[i] == Became(g, replaced, m => SettledItem(decisions, m), LiveItems(g)[i], intent)
  }

  // ---------------------------------------------------------------- soundness

  lemma {:induction false} ListedStays(s: State, intent: Intent, proofs: map<Ref, Proof>, plan: Plan, replaced: set<Ref>, d: Ref)
    requires Planned(s, intent, proofs, plan, replaced) && HasRef(AllItems(s.graph), d)
    ensures HasRef(AllItems(RebasedGraph(s.graph, plan)), d)
    ensures HasRef(AllItems(RebasedGraph(s.graph, plan)), Renamed(s.graph, replaced, d))
  {
    var g, g' := s.graph, RebasedGraph(s.graph, plan);
    OldPositionStays(g, plan, d);
    if d in replaced {
      ReplacedAreLive(LiveItems(g), proofs, intent);
      FreshListed(s, intent, proofs, plan, replaced, d);
    }
  }

  lemma {:induction false} OldPositionStays(g: Graph, plan: Plan, d: Ref)
    requires HasRef(AllItems(g), d)
    ensures HasRef(AllItems(RebasedGraph(g, plan)), d)
  {
    var g' := RebasedGraph(g, plan);
    var i :| 0 <= i < |AllItems(g)| && AllItems(g)[i].AsRef() == d;
    if i < |g.tasks| {
      assert AllItems(g')[i].AsRef() == d;
    } else {
      assert AllItems(g')[|g'.tasks| + (i - |g.tasks|)].AsRef() == d;
    }
  }

  lemma {:induction false} HalfListed(g: Graph, d: Ref)
    requires HasRef(TaskItems(g.tasks), d) || HasRef(GroupItems(g.groups), d)
    ensures HasRef(AllItems(g), d)
  {
    if HasRef(TaskItems(g.tasks), d) {
      var k :| 0 <= k < |g.tasks| && TaskItems(g.tasks)[k].AsRef() == d;
      assert AllItems(g)[k].AsRef() == d;
    } else {
      var k :| 0 <= k < |g.groups| && GroupItems(g.groups)[k].AsRef() == d;
      assert AllItems(g)[|g.tasks| + k].AsRef() == d;
    }
  }

  lemma {:induction false} LaneFreshListed(g: Graph, replaced: set<Ref>, settle: Item -> Item, items: seq<Item>, refs: seq<Ref>, intent: Intent, d: Ref)
    requires LaneReady(g, settle, items, refs) && d in refs && d in replaced
    ensures HasRef(RebasedItems(g, replaced, settle, items, Named(items, refs), intent), FreshRef(g, d))
  {
    var i :| 0 <= i < |refs| && refs[i] == d;
    BecameListed(g, replaced, settle, items, refs, intent, i);
    var all, m' := RebasedItems(g, replaced, settle, items, Named(items, refs), intent), Became(g, replaced, settle, Named(items, refs)[i], intent);
    var k :| 0 <= k < |all| && all[k] == m';
  }

  lemma {:induction false} FreshInHalf(s: State, intent: Intent, proofs: map<Ref, Proof>, plan: Plan, replaced: set<Ref>, d: Ref)
    requires Planned(s, intent, proofs, plan, replaced) && d in replaced
    ensures d in s.graph.activeTasks ==> HasRef(TaskItems(RebasedGraph(s.graph, plan).tasks), FreshRef(s.graph, d))
    ensures d in s.graph.activeGroups ==> HasRef(GroupItems(RebasedGraph(s.graph, plan).groups), FreshRef(s.graph, d))
  {
    var g := s.graph;
    var settle := m => SettledItem(plan.decisions, m);
    LanesRebased(s, intent, proofs, plan, replaced);
    LanesReady(g, plan.decisions);
    if d in g.activeTasks { LaneFreshListed(g, replaced, settle, TaskItems(g.tasks), g.activeTasks, intent, d); }
    if d in g.activeGroups { LaneFreshListed(g, replaced, settle, GroupItems(g.groups), g.activeGroups, intent, d); }
  }

  lemma {:induction false} LiveRefIsActive(g: Graph, d: Ref)
    requires Shaped(g) && d in RefsOf(LiveItems(g))
    ensures d in g.activeTasks || d in g.activeGroups
  {
  }

  lemma {:induction false} FreshListed(s: State, intent: Intent, proofs: map<Ref, Proof>, plan: Plan, replaced: set<Ref>, d: Ref)
    requires Planned(s, intent, proofs, plan, replaced) && d in replaced && d in RefsOf(LiveItems(s.graph))
    ensures HasRef(AllItems(RebasedGraph(s.graph, plan)), FreshRef(s.graph, d))
  {
    LiveRefIsActive(s.graph, d);
    FreshInHalf(s, intent, proofs, plan, replaced, d);
    HalfListed(RebasedGraph(s.graph, plan), FreshRef(s.graph, d));
  }

  /** `g'` lists at least what `g` lists, under the renaming too. */
  ghost predicate Extends(g: Graph, g': Graph, replaced: set<Ref>) {
    g'.id == g.id && forall d :: HasRef(AllItems(g), d) ==> HasRef(AllItems(g'), d) && HasRef(AllItems(g'), Renamed(g, replaced, d))
  }

  lemma {:induction false} TaskStaysSound(g: Graph, g': Graph, replaced: set<Ref>, t: Task, decisions: seq<Decision>, intent: Intent)
    requires TaskSound(g, t) && Extends(g, g', replaced)
    ensures TaskSound(g', SettledTask(t, decisions)) && TaskSound(g', ReplacementTask(g, replaced, t, intent))
  {
  }

  lemma {:induction false} GroupStaysSound(g: Graph, g': Graph, replaced: set<Ref>, group: Group, decisions: seq<Decision>, intent: Intent)
    requires GroupSound(g, group) && Extends(g, g', replaced)
    ensures GroupSound(g', SettledGroup(group, decisions)) && GroupSound(g', ReplacementGroup(g, replaced, group, intent))
  {
  }

  lemma {:induction false} ReplacedTaskFrom(g: Graph, replaced: set<Ref>, live: seq<Item>, intent: Intent, t': Task)
    requires t' in ReplacedTasks(g, replaced, live, intent)
    ensures exists t :: TaskItem(t) in live && t.AsRef() in replaced && t' == ReplacementTask(g, replaced, t, intent)
    decreases |live|
  {
    if live != [] {
      if live[0].TaskItem? && t' == ReplacementTask(g, replaced, live[0].task, intent) && live[0].AsRef() in replaced {
        assert TaskItem(live[0].task) in live;
      } else {
        ReplacedTaskFrom(g, replaced, live[1..], intent, t');
        var t :| TaskItem(t) in live[1..] && t.AsRef() in replaced && t' == ReplacementTask(g, replaced, t, intent);
        assert TaskItem(t) in live;
      }
    }
  }

  lemma {:induction false} ReplacedGroupFrom(g: Graph, replaced: set<Ref>, live: seq<Item>, intent: Intent, p': Group)
    requires p' in ReplacedGroups(g, replaced, live, intent)
    ensures exists p :: GroupItem(p) in live && p.AsRef() in replaced && p' == ReplacementGroup(g, replaced, p, intent)
    decreases |live|
  {
    if live != [] {
      if live[0].GroupItem? && p' == ReplacementGroup(g, replaced, live[0].group, intent) && live[0].AsRef() in replaced {
        assert GroupItem(live[0].group) in live;
      } else {
        ReplacedGroupFrom(g, replaced, live[1..], intent, p');
        var p :| GroupItem(p) in live[1..] && p.AsRef() in replaced && p' == ReplacementGroup(g, replaced, p, intent);
        assert GroupItem(p) in live;
      }
    }
  }

  lemma {:induction false} SoundStays(s: State, intent: Intent, proofs: map<Ref, Proof>, plan: Plan, replaced: set<Ref>)
    requires Planned(s, intent, proofs, plan, replaced) && Sound(s.graph)
    ensures Sound(RebasedGraph(s.graph, plan))
  {
    var g, g' := s.graph, RebasedGraph(s.graph, plan);
    assert Extends(g, g', replaced) by {
      forall d | HasRef(AllItems(g), d) ensures HasRef(AllItems(g'), d) && HasRef(AllItems(g'), Renamed(g, replaced, d)) {
        ListedStays(s, intent, proofs, plan, replaced, d);
      }
    }
    forall t' | t' in g'.tasks ensures TaskSound(g', t') { TaskSoundFrom(s, intent, proofs, plan, replaced, t'); }
    forall p' | p' in g'.groups ensures GroupSound(g', p') { GroupSoundFrom(s, intent, proofs, plan, replaced, p'); }
  }

  lemma {:induction false} TaskSoundFrom(s: State, intent: Intent, proofs: map<Ref, Proof>, plan: Plan, replaced: set<Ref>, t': Task)
    requires Planned(s, intent, proofs, plan, replaced) && Sound(s.graph) && Extends(s.graph, RebasedGraph(s.graph, plan), replaced)
    requires t' in RebasedGraph(s.graph, plan).tasks
    ensures TaskSound(RebasedGraph(s.graph, plan), t')
  {
    var g, g' := s.graph, RebasedGraph(s.graph, plan);
    var k :| 0 <= k < |g'.tasks| && g'.tasks[k] == t';
    if k < |g.tasks| {
      assert g.tasks[k] in g.tasks;
      TaskStaysSound(g, g', replaced, g.tasks[k], plan.decisions, intent);
    } else {
      assert plan.appendedTasks[k - |g.tasks|] == t';
      ReplacedTaskFrom(g, replaced, LiveTasks(g), intent, t');
      var t :| TaskItem(t) in LiveTasks(g) && t.AsRef() in replaced && t' == ReplacementTask(g, replaced, t, intent);
      assert t in g.tasks;
      TaskStaysSound(g, g', replaced, t, plan.decisions, intent);
    }
  }

  lemma {:induction false} GroupSoundFrom(s: State, intent: Intent, proofs: map<Ref, Proof>, plan: Plan, replaced: set<Ref>, p': Group)
    requires Planned(s, intent, proofs, plan, replaced) && Sound(s.graph) && Extends(s.graph, RebasedGraph(s.graph, plan), replaced)
    requires p' in RebasedGraph(s.graph, plan).groups
    ensures GroupSound(RebasedGraph(s.graph, plan), p')
  {
    var g, g' := s.graph, RebasedGraph(s.graph, plan);
    var k :| 0 <= k < |g'.groups| && g'.groups[k] == p';
    if k < |g.groups| {
      assert g.groups[k] in g.groups;
      GroupStaysSound(g, g', replaced, g.groups[k], plan.decisions, intent);
    } else {
      assert plan.appendedGroups[k - |g.groups|] == p';
      ReplacedGroupFrom(g, replaced, LiveGroups(g), intent, p');
      var p :| GroupItem(p) in LiveGroups(g) && p.AsRef() in replaced && p' == ReplacementGroup(g, replaced, p, intent);
      assert p in g.groups;
      GroupStaysSound(g, g', replaced, p, plan.decisions, intent);
    }
  }
}
