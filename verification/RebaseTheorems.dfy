/** The rebased live graph is the old one under new names, so every check that it passed it still passes. */
module RebaseTheorems {
  import opened Core
  import opened Items
  import opened Acyclic
  import opened AcyclicRenaming
  import opened Validation
  import opened Attempts
  import opened Rebase
  import opened RebaseLanes
  import opened RebaseProofs
  import opened RebaseValid
  import R = Ready

  /** `live'` is `live` with every reference renamed, item by item. */
  ghost predicate SameUnder(f: Ref -> Ref, live: seq<Item>, live': seq<Item>) {
    && |live'| == |live|
    && forall i :: 0 <= i < |live| ==> live'[i].AsRef() == f(live[i].AsRef()) && live'[i].Mentions() == MapAll(f, live[i].Mentions())
  }

  ghost function Renaming(g: Graph, replaced: set<Ref>): Ref -> Ref {
    r => Renamed(g, replaced, r)
  }

  lemma {:induction false} ReplacementMentions(g: Graph, replaced: set<Ref>, m: Item, intent: Intent)
    ensures Replacement(g, replaced, m, intent).Mentions() == MapAll(Renaming(g, replaced), m.Mentions())
  {
  }

  lemma {:induction false} SettledSame(m: Item, decisions: seq<Decision>)
    ensures SettledItem(decisions, m).Mentions() == m.Mentions() && SettledItem(decisions, m).AsRef() == m.AsRef()
  {
  }

  lemma {:induction false} NothingRenamed(g: Graph, replaced: set<Ref>, refs: seq<Ref>)
    requires forall d :: d in refs ==> d !in replaced
    ensures MapAll(Renaming(g, replaced), refs) == refs
  {
  }

  lemma {:induction false} LiveSame(s: State, intent: Intent, proofs: map<Ref, Proof>, plan: Plan, replaced: set<Ref>)
    requires Planned(s, intent, proofs, plan, replaced) && Shaped(RebasedGraph(s.graph, plan))
    ensures SameUnder(Renaming(s.graph, replaced), LiveItems(s.graph), LiveItems(RebasedGraph(s.graph, plan)))
  {
    var g, g' := s.graph, RebasedGraph(s.graph, plan);
    var live, live' := LiveItems(g), LiveItems(g');
    ShapedIff(s, intent, proofs, plan, replaced);
    forall i | 0 <= i < |live|
      ensures live'[i].AsRef() == Renaming(g, replaced)(live[i].AsRef()) && live'[i].Mentions() == MapAll(Renaming(g, replaced), live[i].Mentions())
    {
      assert live'[i] == Became(g, replaced, m => SettledItem(plan.decisions, m), live[i], intent);
      BecameSame(g, live, proofs, intent, replaced, plan.decisions, live[i]);
    }
  }

  lemma {:induction false} BecameSame(g: Graph, live: seq<Item>, proofs: map<Ref, Proof>, intent: Intent, replaced: set<Ref>, decisions: seq<Decision>, m: Item)
    requires m in live && replaced == ReplacedSet(live, proofs, intent)
    ensures var m' := Became(g, replaced, x => SettledItem(decisions, x), m, intent);
      m'.AsRef() == Renamed(g, replaced, m.AsRef()) && m'.Mentions() == MapAll(Renaming(g, replaced), m.Mentions())
  {
    if m.AsRef() in replaced {
      ReplacementRef(g, replaced, m, intent);
      ReplacementMentions(g, replaced, m, intent);
    } else {
      RetainedIsProven(live, proofs, intent, m);
      SettledSame(m, decisions);
      NothingRenamed(g, replaced, m.Mentions());
    }
  }

  // ---------------------------------------------------------------- edges

  lemma {:induction false} LiveRefsDistinct(g: Graph)
    requires Shaped(g)
    ensures forall i, j :: 0 <= i < j < |LiveItems(g)| ==> RefsOf(LiveItems(g))[i] != RefsOf(LiveItems(g))[j]
  {
  }

  lemma {:induction false} RenamingInjective(g: Graph, g': Graph, f: Ref -> Ref)
    requires Shaped(g) && Shaped(g') && SameUnder(f, LiveItems(g), LiveItems(g'))
    ensures Injective(f, Elements(RefsOf(LiveItems(g))))
  {
    LiveRefsDistinct(g');
    RefsRenamed(f, LiveItems(g), LiveItems(g'));
    DistinctImages(f, RefsOf(LiveItems(g)));
  }

  lemma {:induction false} RefsRenamed(f: Ref -> Ref, live: seq<Item>, live': seq<Item>)
    requires SameUnder(f, live, live')
    ensures RefsOf(live') == MapAll(f, RefsOf(live))
  {
  }

  lemma {:induction false} DistinctImages(f: Ref -> Ref, refs: seq<Ref>)
    requires forall i, j :: 0 <= i < j < |refs| ==> MapAll(f, refs)[i] != MapAll(f, refs)[j]
    ensures Injective(f, Elements(refs))
  {
    forall a, b | a in refs && b in refs ensures ApartUnder(f, a, b) {
      var i :| 0 <= i < |refs| && refs[i] == a;
      var j :| 0 <= j < |refs| && refs[j] == b;
      assert MapAll(f, refs)[i] == f(a) && MapAll(f, refs)[j] == f(b);
    }
  }

  /** No listed reference is renamed to what a live one is renamed to. */
  ghost predicate Separate(g: Graph, f: Ref -> Ref)
    requires Shaped(g)
  {
    forall a, b :: a in RefsOf(LiveItems(g)) && HasRef(AllItems(g), b) && f(a) == f(b) ==> a == b
  }

  lemma {:induction false} FreshIsNew(g: Graph, a: Ref)
    ensures !HasRef(AllItems(g), FreshRef(g, a))
  {
  }

  lemma {:induction false} RenamingSeparates(g: Graph, replaced: set<Ref>)
    requires Shaped(g) && Injective(Renaming(g, replaced), Elements(RefsOf(LiveItems(g))))
    requires forall r :: r in replaced ==> r in RefsOf(LiveItems(g))
    ensures Separate(g, Renaming(g, replaced))
  {
    forall a, b | a in RefsOf(LiveItems(g)) && HasRef(AllItems(g), b) && Renamed(g, replaced, a) == Renamed(g, replaced, b) ensures a == b {
      if b in replaced {
        assert ApartUnder(Renaming(g, replaced), a, b);
      } else if a in replaced {
        FreshIsNew(g, a);
      }
    }
  }

  lemma {:induction false} AmongRenamed(f: Ref -> Ref, refs: seq<Ref>, keys: set<Ref>, keys': set<Ref>)
    requires forall d :: d in refs ==> (f(d) in keys' <==> d in keys)
    ensures Among(MapAll(f, refs), keys') == MapAll(f, Among(refs, keys))
    decreases |refs|
  {
    if refs != [] {
      var head := if refs[0] in keys then [refs[0]] else [];
      assert refs[0] in refs;
      MapAllTail(f, refs);
      AmongRenamed(f, refs[1..], keys, keys');
      MapAllConcat(f, head, Among(refs[1..], keys));
      assert MapAll(f, head) == if f(refs[0]) in keys' then [f(refs[0])] else [];
    }
  }

  lemma {:induction false} MapAllTail(f: Ref -> Ref, refs: seq<Ref>)
    requires refs != []
    ensures MapAll(f, refs) != [] && MapAll(f, refs)[0] == f(refs[0]) && MapAll(f, refs)[1..] == MapAll(f, refs[1..])
  {
  }

  lemma {:induction false} MapAllConcat(f: Ref -> Ref, a: seq<Ref>, b: seq<Ref>)
    ensures MapAll(f, a + b) == MapAll(f, a) + MapAll(f, b)
  {
  }

  /** Every live item's mentions are listed. */
  ghost predicate MentionsListed(g: Graph)
    requires Shaped(g)
  {
    forall m, d :: m in LiveItems(g) && d in m.Mentions() ==> HasRef(AllItems(g), d)
  }

  lemma {:induction false} SoundMentionsListed(g: Graph)
    requires Shaped(g) && Sound(g)
    ensures MentionsListed(g)
  {
    forall m, d | m in LiveItems(g) && d in m.Mentions() ensures HasRef(AllItems(g), d) {
      assert m in AllItems(g);
      MentionListed(g, m, d);
    }
  }

  lemma {:induction false} EdgeRenamed(g: Graph, g': Graph, f: Ref -> Ref, i: nat)
    requires Shaped(g) && Shaped(g') && SameUnder(f, LiveItems(g), LiveItems(g')) && i < |LiveItems(g)|
    requires Separate(g, f) && MentionsListed(g)
    ensures var k := LiveItems(g)[i].AsRef();
      k in EdgesOf(LiveItems(g)) && f(k) in EdgesOf(LiveItems(g')) && EdgesOf(LiveItems(g'))[f(k)] == MapAll(f, EdgesOf(LiveItems(g))[k])
  {
    var live, live' := LiveItems(g), LiveItems(g');
    var m, m' := live[i], live'[i];
    assert m in live && m' in live';
    R.FindLive(g, m);
    R.FindLive(g', m');
    R.EdgesOfLive(g, m);
    R.EdgesOfLive(g', m');
    var keys, keys' := Elements(RefsOf(live)), Elements(RefsOf(live'));
    forall d | d in m.Mentions() ensures f(d) in keys' <==> d in keys { KeyRenamed(g, live, live', f, d); }
    AmongRenamed(f, m.Mentions(), keys, keys');
  }

  lemma {:induction false} KeyRenamed(g: Graph, live: seq<Item>, live': seq<Item>, f: Ref -> Ref, d: Ref)
    requires Shaped(g) && live == LiveItems(g) && SameUnder(f, live, live') && Separate(g, f) && HasRef(AllItems(g), d)
    ensures f(d) in RefsOf(live') <==> d in RefsOf(live)
  {
    if d in RefsOf(live) {
      var i :| 0 <= i < |live| && RefsOf(live)[i] == d;
      assert RefsOf(live')[i] == f(d);
    }
    if f(d) in RefsOf(live') {
      var i :| 0 <= i < |live'| && RefsOf(live')[i] == f(d);
      assert RefsOf(live)[i] in RefsOf(live) && f(RefsOf(live)[i]) == f(d);
    }
  }

  lemma {:induction false} EdgesRenamed(g: Graph, g': Graph, f: Ref -> Ref)
    requires Shaped(g) && Shaped(g') && SameUnder(f, LiveItems(g), LiveItems(g')) && Separate(g, f) && MentionsListed(g)
    ensures RenamedEdges(f, EdgesOf(LiveItems(g)), EdgesOf(LiveItems(g')))
    ensures RefsOf(LiveItems(g')) == MapAll(f, RefsOf(LiveItems(g)))
  {
    var edges, edges' := EdgesOf(LiveItems(g)), EdgesOf(LiveItems(g'));
    RenamingInjective(g, g', f);
    assert edges.Keys == Elements(RefsOf(LiveItems(g)));
    forall k | k in edges ensures f(k) in edges' && edges'[f(k)] == MapAll(f, edges[k]) { EdgeOfKeyRenamed(g, g', f, k); }
    RefsRenamed(f, LiveItems(g), LiveItems(g'));
  }

  lemma {:induction false} EdgeOfKeyRenamed(g: Graph, g': Graph, f: Ref -> Ref, k: Ref)
    requires Shaped(g) && Shaped(g') && SameUnder(f, LiveItems(g), LiveItems(g')) && Separate(g, f) && MentionsListed(g)
    requires k in EdgesOf(LiveItems(g))
    ensures f(k) in EdgesOf(LiveItems(g')) && EdgesOf(LiveItems(g'))[f(k)] == MapAll(f, EdgesOf(LiveItems(g))[k])
  {
    var i :| 0 <= i < |LiveItems(g)| && RefsOf(LiveItems(g))[i] == k;
    EdgeRenamed(g, g', f, i);
  }

  lemma {:induction false} SearchStays(g: Graph, g': Graph, f: Ref -> Ref)
    requires Shaped(g) && Shaped(g') && SameUnder(f, LiveItems(g), LiveItems(g')) && Separate(g, f) && MentionsListed(g)
    requires SearchesOk(g) && g'.limits == g.limits
    ensures SearchesOk(g')
  {
    EdgesRenamed(g, g', f);
    SearchRenamed(f, EdgesOf(LiveItems(g)), EdgesOf(LiveItems(g')), RefsOf(LiveItems(g)), g.limits.maxDepth);
  }

  // ---------------------------------------------------------------- main results

  lemma {:induction false} CountsStay(s: State, intent: Intent, proofs: map<Ref, Proof>, plan: Plan, replaced: set<Ref>)
    requires Planned(s, intent, proofs, plan, replaced)
    ensures |RebasedGraph(s.graph, plan).activeTasks| == |s.graph.activeTasks|
    ensures |RebasedGraph(s.graph, plan).activeGroups| == |s.graph.activeGroups|
  {
  }

  lemma {:induction false} RebasedSearches(s: State, intent: Intent, proofs: map<Ref, Proof>, plan: Plan, replaced: set<Ref>)
    requires Planned(s, intent, proofs, plan, replaced) && Sound(s.graph) && SearchesOk(s.graph) && Shaped(RebasedGraph(s.graph, plan))
    ensures SearchesOk(RebasedGraph(s.graph, plan))
    ensures Separate(s.graph, Renaming(s.graph, replaced))
    ensures SameUnder(Renaming(s.graph, replaced), LiveItems(s.graph), LiveItems(RebasedGraph(s.graph, plan)))
  {
    var g, g' := s.graph, RebasedGraph(s.graph, plan);
    LiveSame(s, intent, proofs, plan, replaced);
    RenamingInjective(g, g', Renaming(g, replaced));
    ReplacedAreLive(LiveItems(g), proofs, intent);
    RenamingSeparates(g, replaced);
    SoundMentionsListed(g);
    SearchStays(g, g', Renaming(g, replaced));
  }

  lemma {:induction false} ValidParts(g: Graph)
    requires Shaped(g) && Sound(g) && SearchesOk(g) && |g.activeTasks| <= g.limits.maxTasks && g.replanCount <= g.limits.maxReplans
    ensures Valid(g, true)
  {
    LiveSearchIff(g);
  }

  /** On a valid graph the rebased graph is valid, coverage aside, exactly when no two replaced items share a
      logical id; then it is the old live graph under an injective renaming. */
  lemma {:induction false} RebaseValidIff(s: State, intent: Intent, proofs: map<Ref, Proof>, plan: Plan, replaced: set<Ref>)
    requires Valid(s.graph, true) && Planned(s, intent, proofs, plan, replaced)
    ensures Valid(RebasedGraph(s.graph, plan), true) <==> Unambiguous(s.graph, replaced)
    ensures Unambiguous(s.graph, replaced) ==>
      Shaped(RebasedGraph(s.graph, plan))
      && SameUnder(Renaming(s.graph, replaced), LiveItems(s.graph), LiveItems(RebasedGraph(s.graph, plan)))
      && Separate(s.graph, Renaming(s.graph, replaced))
  {
    var g' := RebasedGraph(s.graph, plan);
    ShapedIff(s, intent, proofs, plan, replaced);
    if Unambiguous(s.graph, replaced) {
      SoundStays(s, intent, proofs, plan, replaced);
      CountsStay(s, intent, proofs, plan, replaced);
      RebasedSearches(s, intent, proofs, plan, replaced);
      ValidParts(g');
    }
  }

  // ---------------------------------------------------------------- live dependency targets

  lemma {:induction false} DecisionsMatch(s: State, intent: Intent, proofs: map<Ref, Proof>, plan: Plan, replaced: set<Ref>)
    requires Planned(s, intent, proofs, plan, replaced)
    ensures |plan.decisions| == |LiveItems(s.graph)|
    ensures forall i :: 0 <= i < |plan.decisions| ==> Decide(s.graph, replaced, LiveItems(s.graph)[i], proofs) == Some(plan.decisions[i])
  {
    var live := LiveItems(s.graph);
    RetainedHaveProofs(live, proofs, intent);
    DecisionsSucceed(s.graph, live, replaced, proofs);
  }

  lemma {:induction false} DecisionTargets(s: State, intent: Intent, proofs: map<Ref, Proof>, plan: Plan, replaced: set<Ref>, ref: Ref)
    requires Planned(s, intent, proofs, plan, replaced)
    ensures DecisionFor(plan.decisions, ref).Some? <==> ref in RefsOf(LiveItems(s.graph))
    ensures ref in RefsOf(LiveItems(s.graph)) ==>
      if ref in replaced then DecisionFor(plan.decisions, ref) == Some(Invalidate(ref, FreshRef(s.graph, ref)))
      else DecisionFor(plan.decisions, ref).value.Retain?
  {
    var g, live := s.graph, LiveItems(s.graph);
    DecisionsMatch(s, intent, proofs, plan, replaced);
    forall d | d in plan.decisions
      ensures d.target in RefsOf(live) && (d.target in replaced ==> d == Invalidate(d.target, FreshRef(g, d.target))) && (d.target !in replaced ==> d.Retain?)
    {
      var i :| 0 <= i < |plan.decisions| && plan.decisions[i] == d;
      assert RefsOf(live)[i] == live[i].AsRef();
    }
    if ref in RefsOf(live) {
      var i :| 0 <= i < |live| && RefsOf(live)[i] == ref;
      assert plan.decisions[i] in plan.decisions && plan.decisions[i].target == ref;
    }
  }

  /** Items that are not live are left as they were. */
  lemma {:induction false} InactiveStays(s: State, intent: Intent, proofs: map<Ref, Proof>, plan: Plan, replaced: set<Ref>, d: Ref)
    requires Planned(s, intent, proofs, plan, replaced) && Shaped(RebasedGraph(s.graph, plan))
    requires d !in RefsOf(LiveItems(s.graph)) && Resolve(s.graph, d).Some?
    ensures Resolve(RebasedGraph(s.graph, plan), d) == Resolve(s.graph, d)
  {
    var g, g' := s.graph, RebasedGraph(s.graph, plan);
    var m := Resolve(g, d).value;
    DecisionTargets(s, intent, proofs, plan, replaced, d);
    assert SettledItem(plan.decisions, m) == m;
    SettledListed(g, plan, m);
    R.UniqueAll(g');
    FindInUnique(AllItems(g'), d);
    LookupUnique(AllItems(g'), m);
  }

  lemma {:induction false} SettledListed(g: Graph, plan: Plan, m: Item)
    requires m in AllItems(g)
    ensures SettledItem(plan.decisions, m) in AllItems(RebasedGraph(g, plan))
    ensures HasRef(AllItems(RebasedGraph(g, plan)), m.AsRef())
  {
    var g' := RebasedGraph(g, plan);
    var k :| 0 <= k < |AllItems(g)| && AllItems(g)[k] == m;
    var k' := if k < |g.tasks| then k else |g'.tasks| + (k - |g.tasks|);
    assert AllItems(g')[k'] == SettledItem(plan.decisions, m);
    assert AllItems(g')[k'].AsRef() == m.AsRef();
  }

  /** Live dependencies stay reachable or completed. */
  lemma {:induction false} TargetsStayOk(s: State, intent: Intent, proofs: map<Ref, Proof>, plan: Plan, replaced: set<Ref>)
    requires Planned(s, intent, proofs, plan, replaced) && Shaped(RebasedGraph(s.graph, plan))
    requires R.TargetsOk(s.graph, LiveItems(s.graph))
    ensures R.TargetsOk(RebasedGraph(s.graph, plan), LiveItems(RebasedGraph(s.graph, plan)))
  {
    var g, g' := s.graph, RebasedGraph(s.graph, plan);
    var live, live' := LiveItems(g), LiveItems(g');
    LiveSame(s, intent, proofs, plan, replaced);
    forall i, k | 0 <= i < |live'| && 0 <= k < |live'[i].Mentions()|
      ensures MentionOk(g', live'[i].Mentions()[k])
    {
      MentionStaysOk(s, intent, proofs, plan, replaced, i, k);
    }
    forall i | 0 <= i < |live'| ensures R.MentionsOk(g', live'[i].Mentions(), RefsOf(live')) {
      forall k | 0 <= k < |live'[i].Mentions()| ensures MentionOk(g', live'[i].Mentions()[k]) {}
    }
  }

  ghost predicate MentionOk(g: Graph, d: Ref)
    requires Shaped(g)
  {
    d in RefsOf(LiveItems(g)) || (Resolve(g, d).Some? && Resolve(g, d).value.Status() == Completed)
  }

  lemma {:induction false} MentionStaysOk(s: State, intent: Intent, proofs: map<Ref, Proof>, plan: Plan, replaced: set<Ref>, i: nat, k: nat)
    requires Planned(s, intent, proofs, plan, replaced) && Shaped(RebasedGraph(s.graph, plan))
    requires R.TargetsOk(s.graph, LiveItems(s.graph))
    requires SameUnder(Renaming(s.graph, replaced), LiveItems(s.graph), LiveItems(RebasedGraph(s.graph, plan)))
    requires i < |LiveItems(s.graph)| && k < |LiveItems(s.graph)[i].Mentions()|
    ensures MentionOk(RebasedGraph(s.graph, plan), Renamed(s.graph, replaced, LiveItems(s.graph)[i].Mentions()[k]))
  {
    var g, g' := s.graph, RebasedGraph(s.graph, plan);
    var live, live' := LiveItems(g), LiveItems(g');
    var d := live[i].Mentions()[k];
    assert R.MentionsOk(g, live[i].Mentions(), RefsOf(live));
    if d in RefsOf(live) {
      RefsRenamed(Renaming(g, replaced), live, live');
      ImageListed(Renaming(g, replaced), RefsOf(live), d);
    } else {
      InactiveMentionStays(s, intent, proofs, plan, replaced, d);
    }
  }

  lemma {:induction false} ImageListed(f: Ref -> Ref, refs: seq<Ref>, d: Ref)
    requires d in refs
    ensures f(d) in MapAll(f, refs)
  {
    var j :| 0 <= j < |refs| && refs[j] == d;
    assert MapAll(f, refs)[j] == f(d);
  }

  lemma {:induction false} InactiveMentionStays(s: State, intent: Intent, proofs: map<Ref, Proof>, plan: Plan, replaced: set<Ref>, d: Ref)
    requires Planned(s, intent, proofs, plan, replaced) && Shaped(RebasedGraph(s.graph, plan))
    requires d !in RefsOf(LiveItems(s.graph)) && MentionOk(s.graph, d)
    ensures MentionOk(RebasedGraph(s.graph, plan), Renamed(s.graph, replaced, d))
  {
    ReplacedAreLive(LiveItems(s.graph), proofs, intent);
    InactiveStays(s, intent, proofs, plan, replaced, d);
  }

  /** So the rebased graph is not stuck: each incomplete live item still waits for one that waits for nothing. */
  lemma {:induction false} RebasedProgress(s: State, intent: Intent, proofs: map<Ref, Proof>, plan: Plan, replaced: set<Ref>, m: Item) returns (b: Item)
    requires Valid(s.graph, true) && R.TargetsOk(s.graph, LiveItems(s.graph)) && Planned(s, intent, proofs, plan, replaced)
    requires Unambiguous(s.graph, replaced)
    requires Shaped(RebasedGraph(s.graph, plan)) && m in LiveItems(RebasedGraph(s.graph, plan)) && m.Status() != Completed
    ensures var g' := RebasedGraph(s.graph, plan); b in LiveItems(g') && b.Status() != Completed && R.Unblocked(g', b) && R.Reaches(g', m, b)
  {
    RebaseValidIff(s, intent, proofs, plan, replaced);
    TargetsStayOk(s, intent, proofs, plan, replaced);
    b := R.Progress(RebasedGraph(s.graph, plan), m);
  }

  // ---------------------------------------------------------------- bindings and Attempts

  /** Clean work bound to the new Intent. */
  ghost predicate ReboundTo(m: Item, intent: Intent) {
    && m.Status() == Pending && IntentVersionOf(m) == intent.version && BindingHashOf(m) == intent.fingerprint && Binding(m) == Current
    && (m.TaskItem? ==> m.task.activeAttempt.None? && m.task.outputs == [] && m.task.failure.None?)
    && (m.GroupItem? ==> m.group.winner.None? && m.group.verification.None?)
  }

  /** What the runtime checks against its configuration, and what the item is for, is as before. */
  ghost predicate SamePurpose(m: Item, m': Item) {
    match m
    case TaskItem(t) =>
      m'.TaskItem? && m'.task.contract == t.contract && m'.task.policy == t.policy && m'.task.goal == t.goal && m'.task.supports == t.supports
      && m'.task.required == t.required && m'.task.priority == t.priority && m'.task.shape == t.shape && m'.task.resourceKeys == t.resourceKeys
    case GroupItem(p) =>
      m'.GroupItem? && m'.group.contract == p.contract && m'.group.supports == p.supports && m'.group.required == p.required && m'.group.join == p.join
  }

  /** Every live item of the rebased graph is clean work bound to the new Intent, or an old item whose only
      change is its binding state and which has an exact passing proof. Either serves the same purpose. */
  lemma {:induction false} EverythingRebound(s: State, intent: Intent, proofs: map<Ref, Proof>, plan: Plan, replaced: set<Ref>, i: nat)
    requires Planned(s, intent, proofs, plan, replaced) && Shaped(RebasedGraph(s.graph, plan)) && i < |LiveItems(s.graph)|
    ensures |LiveItems(RebasedGraph(s.graph, plan))| == |LiveItems(s.graph)|
    ensures var m, m' := LiveItems(s.graph)[i], LiveItems(RebasedGraph(s.graph, plan))[i];
      if m.AsRef() in replaced then ReboundTo(m', intent) && m'.AsRef().Logical() == m.AsRef().Logical()
      else m' == WithBinding(m, Retained) && HasExactProof(m, proofs, intent)
    ensures SamePurpose(LiveItems(s.graph)[i], LiveItems(RebasedGraph(s.graph, plan))[i])
  {
    var m := LiveItems(s.graph)[i];
    ShapedIff(s, intent, proofs, plan, replaced);
    assert RefsOf(LiveItems(s.graph))[i] == m.AsRef();
    DecisionTargets(s, intent, proofs, plan, replaced, m.AsRef());
    if m.AsRef() !in replaced { RetainedIsProven(LiveItems(s.graph), proofs, intent, m); }
  }

  ghost function WithBinding(m: Item, state: BindingState): Item {
    match m
    case TaskItem(t) => TaskItem(t.(bindingState := state))
    case GroupItem(p) => GroupItem(p.(bindingState := state))
  }

  /** History is kept, and the invalidated revisions are closed: none of them is left pending or at work. */
  lemma {:induction false} InvalidatedAreClosed(s: State, intent: Intent, proofs: map<Ref, Proof>, plan: Plan, replaced: set<Ref>, t: Task)
    requires Planned(s, intent, proofs, plan, replaced) && t in s.graph.tasks && t.AsRef() in replaced
    ensures var t' := SettledTask(t, plan.decisions);
      && t' in RebasedGraph(s.graph, plan).tasks && t'.AsRef() == t.AsRef() && t'.bindingState == Invalidated
      && t'.status in {Completed, Failed, Cancelled}
  {
    ReplacedAreLive(LiveItems(s.graph), proofs, intent);
    DecisionTargets(s, intent, proofs, plan, replaced, t.AsRef());
    InvalidatedIsClosed(t, plan.decisions);
    SettledTaskListed(s.graph, plan, t);
  }

  lemma {:induction false} InvalidatedIsClosed(t: Task, decisions: seq<Decision>)
    requires DecisionFor(decisions, t.AsRef()).Some? && DecisionFor(decisions, t.AsRef()).value.Invalidate?
    ensures var t' := SettledTask(t, decisions);
      t'.AsRef() == t.AsRef() && t'.bindingState == Invalidated && t'.status in {Completed, Failed, Cancelled}
  {
    match t.status
    case Completed => case Failed => case Cancelled =>
    case Pending => case Running => case Waiting => case Verifying =>
  }

  lemma {:induction false} SettledTaskListed(g: Graph, plan: Plan, t: Task)
    requires t in g.tasks
    ensures SettledTask(t, plan.decisions) in RebasedGraph(g, plan).tasks
  {
    var k :| 0 <= k < |g.tasks| && g.tasks[k] == t;
    assert RebasedGraph(g, plan).tasks[k] == SettledTask(t, plan.decisions);
  }

  /** The whole operation: it fails on a fresh plan exactly when two replaced items share a logical id, and when
      it succeeds the graph is valid, cancelled Attempts keep their slot and their paths while they retire, their
      locks and no others retire with them, one request per cancellation names the Attempt's lease, and the prior
      Intent is superseded by the new one. */
  lemma {:induction false} RebaseApplies(s: State, intent: Intent, proofs: map<Ref, Proof>, plan: Plan, replaced: set<Ref>, ids: seq<string>)
    requires Valid(s.graph, true) && Planned(s, intent, proofs, plan, replaced) && |ids| == |plan.cancellations|
    ensures ApplyRebase(s, plan, ids).Ok? <==> Unambiguous(s.graph, replaced)
    ensures ApplyRebase(s, plan, ids).Ok? ==> RebaseDone(s, plan, ApplyRebase(s, plan, ids).value)
  {
    RebaseValidIff(s, intent, proofs, plan, replaced);
    AcceptedIffValid(RebasedGraph(s.graph, plan), true);
    if Unambiguous(s.graph, replaced) { AppliedIsDone(s, plan, ids); }
  }

  lemma {:induction false} AppliedIsDone(s: State, plan: Plan, ids: seq<string>)
    requires |ids| == |plan.cancellations| && ApplyRebase(s, plan, ids).Ok? && Valid(RebasedGraph(s.graph, plan), true)
    ensures RebaseDone(s, plan, ApplyRebase(s, plan, ids).value)
  {
    AttemptsRetire(s, plan, ids);
    LocksAndIntents(s, plan, ids);
    RequestsMade(s, plan, ids);
  }

  lemma {:induction false} AttemptsRetire(s: State, plan: Plan, ids: seq<string>)
    requires |ids| == |plan.cancellations| && ApplyRebase(s, plan, ids).Ok?
    ensures AttemptsAfter(s.attempts, plan, ApplyRebase(s, plan, ids).value.attempts)
  {
    forall i | 0 <= i < |s.attempts| ensures AttemptAfter(s.attempts[i], plan, RetireAttempt(s.attempts[i], plan)) {
      CancelledByIff(plan, s.attempts[i].id);
    }
  }

  lemma {:induction false} LocksAndIntents(s: State, plan: Plan, ids: seq<string>)
    requires |ids| == |plan.cancellations| && ApplyRebase(s, plan, ids).Ok?
    ensures var s' := ApplyRebase(s, plan, ids).value;
      s'.graph == RebasedGraph(s.graph, plan) && LocksAfter(s.locks, plan, s'.locks) && IntentsAfter(s.intents, plan, s'.intents)
  {
    forall i | 0 <= i < |s.locks| ensures LockAfter(s.locks[i], plan, RetireLock(s.locks[i], plan)) { CancelledByIff(plan, s.locks[i].attemptId); }
  }

  lemma {:induction false} RequestsMade(s: State, plan: Plan, ids: seq<string>)
    requires |ids| == |plan.cancellations| && ApplyRebase(s, plan, ids).Ok?
    ensures RequestsAfter(s.cancellations, plan, ApplyRebase(s, plan, ids).value.cancellations)
  {
  }

  ghost predicate RebaseDone(s: State, plan: Plan, s': State) {
    && s'.graph == RebasedGraph(s.graph, plan) && Valid(s'.graph, true)
    && AttemptsAfter(s.attempts, plan, s'.attempts) && LocksAfter(s.locks, plan, s'.locks)
    && RequestsAfter(s.cancellations, plan, s'.cancellations) && IntentsAfter(s.intents, plan, s'.intents)
  }

  ghost predicate AttemptsAfter(before: seq<Attempt>, plan: Plan, after: seq<Attempt>) {
    |after| == |before| && forall i :: 0 <= i < |before| ==> AttemptAfter(before[i], plan, after[i])
  }

  ghost predicate LocksAfter(before: seq<Lock>, plan: Plan, after: seq<Lock>) {
    |after| == |before| && forall i :: 0 <= i < |before| ==> LockAfter(before[i], plan, after[i])
  }

  ghost predicate RequestsAfter(before: seq<Cancellation>, plan: Plan, after: seq<Cancellation>) {
    && |after| == |before| + |plan.cancellations| && before <= after
    && forall i :: 0 <= i < |plan.cancellations| ==> Requests(plan.cancellations[i], after[|before| + i])
  }

  ghost predicate IntentsAfter(before: seq<Intent>, plan: Plan, after: seq<Intent>) {
    && |after| == |before| + 1 && after[|before|] == plan.newIntent
    && forall i :: 0 <= i < |before| ==> IntentAfter(before[i], plan.prior, after[i])
  }

  /** Some planned cancellation names the Attempt. */
  ghost predicate HasCancellation(plan: Plan, id: string) {
    exists c :: c in plan.cancellations && c.attemptId == id
  }

  lemma {:induction false} CancelledByIff(plan: Plan, id: string)
    ensures CancelledBy(plan, id) <==> HasCancellation(plan, id)
  {
    if c :| c in plan.cancellations && c.attemptId == id {
      var i :| 0 <= i < |plan.cancellations| && plan.cancellations[i] == c;
    }
  }

  ghost predicate LockAfter(l: Lock, plan: Plan, l': Lock) {
    l' == l.(retiring := l'.retiring) && (l'.retiring <==> l.retiring || HasCancellation(plan, l.attemptId))
  }

  ghost predicate IntentAfter(i: Intent, prior: Intent, i': Intent) {
    i' == i.(status := i'.status) && (i'.status != i.status ==> i.id == prior.id && i.version == prior.version)
    && (i.id == prior.id && i.version == prior.version ==> i'.status == SupersededIntent)
  }

  // ---------------------------------------------------------------- from the plan to its application

  lemma {:induction false} ConfirmedMeans(intents: seq<Intent>, id: string)
    ensures forall i :: i in ConfirmedOf(intents, id) <==> i in intents && i.id == id && i.status == Confirmed
    decreases |intents|
  {
    if intents != [] { ConfirmedMeans(intents[1..], id); }
  }

  lemma {:induction false} NoneConfirmed(intents: seq<Intent>, id: string)
    requires forall k :: 0 <= k < |intents| ==> intents[k].id != id || intents[k].status != Confirmed
    ensures ConfirmedOf(intents, id) == []
    decreases |intents|
  {
    if intents != [] {
      forall k | 0 <= k < |intents[1..]| ensures intents[1..][k].id != id || intents[1..][k].status != Confirmed { assert intents[1..][k] == intents[k + 1]; }
      NoneConfirmed(intents[1..], id);
    }
  }

  lemma {:induction false} ConfirmedConcat(a: seq<Intent>, b: seq<Intent>, id: string)
    ensures ConfirmedOf(a + b, id) == ConfirmedOf(a, id) + ConfirmedOf(b, id)
    decreases |a|
  {
    if a == [] { assert a + b == b; } else { assert (a + b)[1..] == a[1..] + b; ConfirmedConcat(a[1..], b, id); }
  }

  lemma {:induction false} NotConfirmedNow(intents: seq<Intent>, plan: Plan, i: Intent, i': Intent)
    requires ConfirmedOf(intents, plan.prior.id) == [plan.prior] && i in intents && IntentAfter(i, plan.prior, i')
    ensures i'.id != plan.prior.id || i'.status != Confirmed
  {
    ConfirmedMeans(intents, plan.prior.id);
    if i.id == plan.prior.id && i.status == Confirmed { assert i in [plan.prior]; }
  }

  lemma {:induction false} PriorHasId(intents: seq<Intent>, id: string, prior: Intent)
    requires ConfirmedOf(intents, id) == [prior]
    ensures prior.id == id
  {
    ConfirmedMeans(intents, id);
    assert prior in [prior];
  }

  /** Of all Intents with the new one's id only the new one is confirmed. */
  lemma {:induction false} OneConfirmed(before: seq<Intent>, plan: Plan, after: seq<Intent>)
    requires IntentsAfter(before, plan, after) && ConfirmedOf(before, plan.newIntent.id) == [plan.prior] && plan.newIntent.status == Confirmed
    ensures ConfirmedOf(after, plan.newIntent.id) == [plan.newIntent]
  {
    var id, earlier := plan.newIntent.id, after[..|before|];
    PriorHasId(before, id, plan.prior);
    forall k | 0 <= k < |earlier| ensures earlier[k].id != id || earlier[k].status != Confirmed {
      NotConfirmedNow(before, plan, before[k], after[k]);
    }
    NoneConfirmed(earlier, id);
    assert after == earlier + [plan.newIntent];
    ConfirmedConcat(earlier, [plan.newIntent], id);
    assert [plan.newIntent][1..] == [];
  }

  /** From the proposal to the new state: a plan made from a valid graph is applied exactly when no two invalidated
      items share a logical id, and then the new version of the Intent is the one that the graph is bound to, and
      the only confirmed one, as planning the next rebase requires. */
  lemma {:induction false} PlannedRebaseApplies(s: State, intent: Intent, reuse: seq<Proof>, plan: Plan, ids: seq<string>)
    requires Valid(s.graph, true) && PlanRebase(s, intent, reuse) == Ok(plan) && |ids| == |plan.cancellations|
    ensures ProofIndex(reuse).Some?
    ensures var replaced := ReplacedSet(LiveItems(s.graph), ProofIndex(reuse).value, intent);
      ApplyRebase(s, plan, ids).Ok? <==> Unambiguous(s.graph, replaced)
    ensures ApplyRebase(s, plan, ids).Ok? ==>
      var s' := ApplyRebase(s, plan, ids).value;
      && RebaseDone(s, plan, s') && s'.graph.intentId == intent.id && s'.graph.intentVersion == intent.version
      && (intent.id == s.graph.intentId && intent.status == Confirmed ==> ConfirmedOf(s'.intents, s'.graph.intentId) == [intent])
  {
    PlanIsFromLive(s, intent, reuse, plan);
    var proofs := ProofIndex(reuse).value;
    RebaseApplies(s, intent, proofs, plan, ReplacedSet(LiveItems(s.graph), proofs, intent), ids);
    if ApplyRebase(s, plan, ids).Ok? && intent.id == s.graph.intentId && intent.status == Confirmed {
      PriorOfPlan(s, intent, reuse, plan);
      OneConfirmed(s.intents, plan, ApplyRebase(s, plan, ids).value.intents);
    }
  }

  lemma {:induction false} PriorOfPlan(s: State, intent: Intent, reuse: seq<Proof>, plan: Plan)
    requires PlanRebase(s, intent, reuse) == Ok(plan)
    ensures ConfirmedOf(s.intents, s.graph.intentId) == [plan.prior] && plan.newIntent == intent
  {
  }

  ghost predicate AttemptAfter(a: Attempt, plan: Plan, a': Attempt) {
    && a'.id == a.id && a'.lease.resourceKeys == a.lease.resourceKeys && a'.lease.epoch == a.lease.epoch
    && (Holds(a) ==> Holds(a'))
    && (if HasCancellation(plan, a.id) then a'.status == AttemptCancelled && a'.lease.retiring else a' == a)
  }

  ghost predicate Requests(c: PlannedCancellation, r: Cancellation) {
    r.attemptId == c.attemptId && r.epoch == c.epoch && r.token == c.token && !r.acknowledged
  }
}
