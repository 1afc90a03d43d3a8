/** When patches finish. A patch whose new dependencies go downwards in one order of the logical ids always
    finishes, and leaves a graph of which the same can be said again; making a Task depend on itself never
    returns. */
module PatchTermination {
  import opened Core
  import opened Items
  import opened Acyclic
  import opened Rewrite
  import opened RewritePass
  import opened RewriteRound
  import opened RewriteLog
  import opened RewriteTheorems
  import opened RewriteTermination
  import opened RewriteRaising
  import opened RunOrder
  import opened Validation
  import opened Patch
  import opened PatchConserves
  import opened PatchEdits
  import opened PatchOrder
  import R = Ready

  /** A well-shaped graph in which the active revision of every logical id is its newest. */
  ghost predicate Newest(g: Graph) {
    Shaped(g) && Sound(g) && WorkOk(ListsOf(g)) && LiveIsNewest(ListsOf(g))
  }

  lemma {:induction false} LiveIsLiveItems(g: Graph)
    requires Shaped(g) && WorkOk(ListsOf(g))
    ensures Live(ListsOf(g)) == LiveItems(g)
  {
  }

  lemma {:induction false} SoundIsWorkOk(g: Graph)
    requires Shaped(g) && Sound(g)
    ensures WorkOk(ListsOf(g))
  {
    assert ChildrenAreTasks(g.groups) by {
      forall group, c | group in g.groups && c in group.children ensures c.task.kind == TaskKind { assert GroupSound(g, group); }
    }
  }

  lemma {:induction false} ListedIsKnown(g: Graph, d: Ref)
    requires HasRef(AllItems(g), d)
    ensures Known(ListsOf(g), d)
  {
    var i :| 0 <= i < |AllItems(g)| && AllItems(g)[i].AsRef() == d;
    if i < |g.tasks| {
      assert TaskItems(g.tasks)[i].AsRef() == d;
    } else {
      assert GroupItems(g.groups)[i - |g.tasks|].AsRef() == d;
    }
  }

  lemma {:induction false} MentionIsListed(g: Graph, m: Item, d: Ref)
    requires Sound(g) && m in AllItems(g) && d in m.Mentions()
    ensures Known(ListsOf(g), d)
  {
    MentionListed(g, m, d);
    ListedIsKnown(g, d);
  }

  lemma {:induction false} NewestIsTidy(g: Graph, future: set<Ref>)
    requires Newest(g) && forall f :: f in future ==> NewId(ListsOf(g), f.Logical())
    ensures Tidy(ListsOf(g), future)
  {
    var w := ListsOf(g);
    LiveIsLiveItems(g);
    forall m | m in Live(w) && m.Status() == Pending ensures MentionsListed(w, future, m) {
      forall d | d in m.Mentions() ensures Known(w, d) { MentionIsListed(g, m, d); }
    }
  }

  // ---------------------------------------------------------------- an order of a valid graph

  /** The place of the active revision of a logical id in an order of references. */
  ghost function PlaceOf(live: seq<Item>, order: seq<Ref>, id: LogicalId): nat {
    if r: Ref :| r in RefsOf(live) && r in order && r.Logical() == id then Position(order, r) else 0
  }

  lemma {:induction false} OrderOf(g: Graph) returns (order: seq<Ref>)
    requires Shaped(g) && SearchesOk(g)
    ensures Topological(EdgesOf(LiveItems(g)), order) && (forall k :: k in EdgesOf(LiveItems(g)) ==> k in order)
  {
    order := AcceptedIsOrdered(EdgesOf(LiveItems(g)), RefsOf(LiveItems(g)), g.limits.maxDepth);
  }

  lemma {:induction false} OrderDescends(g: Graph, order: seq<Ref>, m: Item, d: Item)
    requires Shaped(g) && Topological(EdgesOf(LiveItems(g)), order) && (forall k :: k in EdgesOf(LiveItems(g)) ==> k in order)
    requires m in LiveItems(g) && d in LiveItems(g) && d.AsRef() in m.Mentions()
    ensures m.AsRef() in order && d.AsRef() in order && Position(order, d.AsRef()) < Position(order, m.AsRef())
  {
    R.EdgesOfLive(g, m);
    R.EdgesOfLive(g, d);
    var p := Position(order, m.AsRef());
    assert d.AsRef() in R.EdgesAt(g, order[p]);
    assert d.AsRef() in order[..p];
    var q :| 0 <= q < p && order[q] == d.AsRef();
  }

  lemma {:induction false} PlaceOfLive(w: Work, order: seq<Ref>, m: Item)
    requires WorkOk(w) && LiveIsNewest(w) && m in Live(w) && m.AsRef() in order
    ensures PlaceOf(Live(w), order, m.AsRef().Logical()) == Position(order, m.AsRef())
  {
    InRefs(Live(w), m);
    forall r | r in RefsOf(Live(w)) && r.Logical() == m.AsRef().Logical() ensures r == m.AsRef() {
      var n := OfRefs(Live(w), r);
      SameIdSameItem(w, m, n);
    }
  }

  /** The search for cycles that validation ran gives an order of the logical ids. */
  lemma {:induction false} AcceptedIsRanked(g: Graph) returns (rank: LogicalId -> nat, bound: nat)
    requires Newest(g) && SearchesOk(g)
    ensures Ordered(ListsOf(g), rank) && forall id :: rank(id) <= bound
  {
    var w := ListsOf(g);
    var order := OrderOf(g);
    var live := Live(w);
    LiveIsLiveItems(g);
    rank, bound := id => PlaceOf(live, order, id), |order|;
    forall m, d | m in live && m.Status() == Pending && d in m.Mentions() ensures Below(w, rank, d, m.AsRef().Logical()) {
      MentionIsListed(g, m, d);
      if IsLive(w, d) {
        var j := LiveAt(w, d);
        OrderDescends(g, order, m, live[j]);
        PlaceOfLive(w, order, m);
        PlaceOfLive(w, order, live[j]);
      }
    }
    assert forall m :: m in live && m.Status() == Pending ==> ItemOrdered(w, rank, m);
  }

  // ---------------------------------------------------------------- whole patches

  function AllAdds(ops: seq<Operation>): seq<Item> {
    if ops == [] then [] else Adds(ops[0]) + AllAdds(ops[1..])
  }

  ghost predicate DistinctIdsOf(items: seq<Item>) {
    forall i, j :: 0 <= i < j < |items| ==> items[i].AsRef().Logical() != items[j].AsRef().Logical()
  }

  /** What the caller can check of a patch before it is applied: the ids it adds are new and different, and all that
      it makes something depend on is listed in the graph or added by the patch, and is dead or lies below in
      the order. */
  ghost predicate PatchFits(g: Graph, ops: seq<Operation>, rank: LogicalId -> nat) {
    && DistinctIdsOf(AllAdds(ops)) && (forall m :: m in AllAdds(ops) ==> NewId(ListsOf(g), m.AsRef().Logical()))
    && forall o :: o in ops ==> Fits(ListsOf(g), o, RefSet(AllAdds(ops)), rank)
  }

  ghost predicate Fits(w: Work, o: Operation, allowed: set<Ref>, rank: LogicalId -> nat) {
    SoundOperation(o) && Lists(w, o, allowed) && Respects(w, o, rank)
  }

  /** What is listed and in order stays so as the lists grow. */
  lemma {:induction false} ListsLater(w0: Work, w: Work, o: Operation, all: set<Ref>, allowed: set<Ref>)
    requires Lists(w0, o, all) && Descends(w0, w) && forall a :: a in all ==> Known(w, a) || a in allowed
    ensures Lists(w, o, allowed)
  {
    forall m | m in Brings(o) && m.Status() == Pending ensures MentionsListed(w, allowed, m) { assert MentionsListed(w0, all, m); }
  }

  lemma {:induction false} RespectsLater(w0: Work, w: Work, o: Operation, rank: LogicalId -> nat)
    requires Respects(w0, o, rank) && Descends(w0, w)
    ensures Respects(w, o, rank)
  {
    forall m | m in Brings(o) && m.Status() == Pending ensures ItemOrdered(w, rank, m) {
      assert ItemOrdered(w0, rank, m);
      forall d | d in m.Mentions() ensures Below(w, rank, d, m.AsRef().Logical()) { assert Below(w0, rank, d, m.AsRef().Logical()); }
    }
    if o.op.ReplaceDependencies? && o.taskId.Some? {
      var id := LogicalId(TaskKind, o.taskId.value);
      forall d | d in o.dependencies ensures Below(w, rank, d, id) { assert Below(w0, rank, d, id); }
    }
  }

  lemma {:induction false} RefSetConcat(a: seq<Item>, b: seq<Item>)
    ensures RefSet(a + b) == RefSet(b) + RefSet(a)
  {
    assert RefsOf(a + b) == RefsOf(a) + RefsOf(b);
  }

  lemma {:induction false} DistinctParts(a: seq<Item>, b: seq<Item>)
    requires DistinctIdsOf(a + b)
    ensures DistinctIdsOf(b)
    ensures forall f, x :: f in RefSet(b) && x in a ==> f.Logical() != x.AsRef().Logical()
  {
    forall i, j | 0 <= i < j < |b| ensures b[i].AsRef().Logical() != b[j].AsRef().Logical() {
      assert (a + b)[|a| + i] == b[i] && (a + b)[|a| + j] == b[j];
    }
    forall f, x | f in RefSet(b) && x in a ensures f.Logical() != x.AsRef().Logical() {
      var y := OfRefs(b, f);
      var i :| 0 <= i < |a| && a[i] == x;
      var j :| 0 <= j < |b| && b[j] == y;
      assert (a + b)[i] == x && (a + b)[|a| + j] == y;
    }
  }

  /** Between two operations of a patch to the lists `w0`. */
  ghost predicate Underway(w0: Work, w: Work, ops: seq<Operation>, all: set<Ref>) {
    && Descends(w0, w) && w.queue == [] && Tidy(w, RefSet(AllAdds(ops))) && DistinctIdsOf(AllAdds(ops))
    && (forall a :: a in all ==> Known(w, a) || a in RefSet(AllAdds(ops)))
    && forall o :: o in ops ==> SoundOperation(o) && Lists(w0, o, all)
  }

  lemma {:induction false} NextUnderway(w0: Work, w: Work, ops: seq<Operation>, all: set<Ref>)
    requires Underway(w0, w, ops, all) && ops != []
    ensures var future := RefSet(AllAdds(ops[1..]));
      Tidy(w, future + RefSet(Adds(ops[0]))) && IdsApart(ops[0], future) && Lists(w, ops[0], future + RefSet(Adds(ops[0])))
      && SoundOperation(ops[0]) && DistinctIdsOf(AllAdds(ops[1..]))
  {
    RefSetConcat(Adds(ops[0]), AllAdds(ops[1..]));
    DistinctParts(Adds(ops[0]), AllAdds(ops[1..]));
    ListsLater(w0, w, ops[0], all, RefSet(AllAdds(ops)));
  }

  lemma {:induction false} UnderwayOn(w0: Work, w: Work, w': Work, ops: seq<Operation>, all: set<Ref>)
    requires Underway(w0, w, ops, all) && ops != [] && Descends(w, w') && w'.queue == [] && Tidy(w', RefSet(AllAdds(ops[1..])))
    requires forall x :: x in Adds(ops[0]) ==> Known(w', x.AsRef())
    ensures Underway(w0, w', ops[1..], all)
  {
    RefSetConcat(Adds(ops[0]), AllAdds(ops[1..]));
    DistinctParts(Adds(ops[0]), AllAdds(ops[1..]));
    forall a | a in all ensures Known(w', a) || a in RefSet(AllAdds(ops[1..])) {
      if a in RefSet(Adds(ops[0])) { var x := OfRefs(Adds(ops[0]), a); }
    }
  }

  lemma {:induction false} UnderwayStep(w0: Work, w: Work, ops: seq<Operation>, all: set<Ref>, rounds: nat, w': Work)
    requires Underway(w0, w, ops, all) && ops != [] && ApplyOne(w, ops[0], rounds) == Done(w')
    ensures Underway(w0, w', ops[1..], all)
  {
    var future := RefSet(AllAdds(ops[1..]));
    NextUnderway(w0, w, ops, all);
    DoneIsRun(w, ops[0], rounds);
    EnterKeepsTidy(w, ops[0], future);
    RunKeepsTidyLists(Enter(w, ops[0]).value, rounds, w', future);
    UnderwayOn(w0, w, w', ops, all);
  }

  lemma {:induction false} RunKeepsTidyLists(w1: Work, rounds: nat, w': Work, future: set<Ref>)
    requires Entered(w1, future) && RunRounds(w1, rounds) == Done(w')
    ensures Tidy(w', future) && w'.queue == [] && Descends(w1, w')
  {
    if w1.queue != [] {
      RunKeepsTidy(w1, rounds, w', future);
      DeadStays(w1, rounds, w');
      RunKeeps(a => true, w1, rounds, w');
    }
  }

  lemma {:induction false} DoneIsRun(w: Work, o: Operation, rounds: nat)
    requires w.queue == [] && ApplyOne(w, o, rounds).Done?
    ensures Enter(w, o).Ok? && RunRounds(Enter(w, o).value, rounds) == ApplyOne(w, o, rounds)
  {
    assert w.(queue := []) == w;
  }

  /** The same for a patch that fits an order. */
  ghost predicate Midway(w0: Work, w: Work, ops: seq<Operation>, all: set<Ref>, rank: LogicalId -> nat) {
    Underway(w0, w, ops, all) && Ordered(w, rank) && forall o :: o in ops ==> Respects(w0, o, rank)
  }

  lemma {:induction false} StepForward(w0: Work, w: Work, ops: seq<Operation>, all: set<Ref>, rank: LogicalId -> nat) returns (rounds: nat)
    requires Midway(w0, w, ops, all, rank) && ops != []
    ensures ApplyOne(w, ops[0], rounds) != Unfinished
    ensures ApplyOne(w, ops[0], rounds).Done? ==> Midway(w0, ApplyOne(w, ops[0], rounds).work, ops[1..], all, rank)
  {
    NextUnderway(w0, w, ops, all);
    RespectsLater(w0, w, ops[0], rank);
    rounds := OperationFinishes(w, ops[0], RefSet(AllAdds(ops[1..])), rank);
    if ApplyOne(w, ops[0], rounds).Done? { UnderwayStep(w0, w, ops, all, rounds, ApplyOne(w, ops[0], rounds).work); }
  }

  /** Every operation of the sequence finishes, and all of them together within one number of rounds. */
  lemma {:induction false} SequenceFinishes(w0: Work, w: Work, ops: seq<Operation>, all: set<Ref>, rank: LogicalId -> nat) returns (rounds: nat)
    requires Midway(w0, w, ops, all, rank)
    ensures ApplyAll(w, ops, rounds) != Unfinished
    ensures ApplyAll(w, ops, rounds).Done? ==> var w' := ApplyAll(w, ops, rounds).work; Tidy(w', {}) && Ordered(w', rank)
    decreases |ops|
  {
    if ops == [] {
      rounds := 0;
    } else {
      rounds := StepForward(w0, w, ops, all, rank);
      if ApplyOne(w, ops[0], rounds).Done? {
        var w' := ApplyOne(w, ops[0], rounds).work;
        var later := SequenceFinishes(w0, w', ops[1..], all, rank);
        var both := if rounds < later then later else rounds;
        MoreRoundsSameOne(w, ops[0], rounds, both);
        MoreRoundsSamePatch(w', ops[1..], later, both);
        rounds := both;
      }
    }
  }

  lemma {:induction false} MoreRoundsSameOne(w: Work, o: Operation, few: nat, many: nat)
    requires few <= many && ApplyOne(w, o, few) != Unfinished
    ensures ApplyOne(w, o, many) == ApplyOne(w, o, few)
  {
    var entered := Enter(w.(queue := []), o);
    if entered.Ok? { MoreRoundsSameOutcome(entered.value, few, many); }
  }

  lemma {:induction false} PatchStarts(g: Graph, ops: seq<Operation>, rank: LogicalId -> nat)
    requires Newest(g) && Ordered(ListsOf(g), rank) && PatchFits(g, ops, rank)
    ensures Midway(ListsOf(g), ListsOf(g), ops, RefSet(AllAdds(ops)), rank)
  {
    UnderwayAtStart(g, ops);
  }

  lemma {:induction false} UnderwayAtStart(g: Graph, ops: seq<Operation>)
    requires Newest(g) && DistinctIdsOf(AllAdds(ops)) && forall m :: m in AllAdds(ops) ==> NewId(ListsOf(g), m.AsRef().Logical())
    requires forall o :: o in ops ==> SoundOperation(o) && Lists(ListsOf(g), o, RefSet(AllAdds(ops)))
    ensures Underway(ListsOf(g), ListsOf(g), ops, RefSet(AllAdds(ops)))
  {
    forall f | f in RefSet(AllAdds(ops)) ensures NewId(ListsOf(g), f.Logical()) { var x := OfRefs(AllAdds(ops), f); }
    NewestIsTidy(g, RefSet(AllAdds(ops)));
  }

  /** Main result on termination. A patch to a graph whose active revisions are the newest always returns, if one
      order of the logical ids puts every pending item above all that is not dead among what it depends on, the
      new dependencies of the patch included. */
  lemma {:induction false} OrderedPatchTerminates(g: Graph, p: GraphPatch, rank: LogicalId -> nat)
    requires Newest(g) && Ordered(ListsOf(g), rank) && PatchFits(g, p.operations, rank)
    ensures PatchTerminates(g, p)
  {
    if PatchError(g, p).None? {
      PatchStarts(g, p.operations, rank);
      var rounds := SequenceFinishes(ListsOf(g), ListsOf(g), p.operations, RefSet(AllAdds(p.operations)), rank);
      assert Apply(g, p, rounds) != StillRunning;
    } else {
      assert Apply(g, p, 0) != StillRunning;
    }
  }

  /** The graph that such a patch makes has its newest revisions active again, and the same order orders it. */
  lemma {:induction false} OrderedPatchKeepsOrder(g: Graph, p: GraphPatch, rank: LogicalId -> nat, rounds: nat)
    requires Newest(g) && Ordered(ListsOf(g), rank) && PatchFits(g, p.operations, rank) && Apply(g, p, rounds).Patched?
    ensures var g' := Apply(g, p, rounds).graph; Newest(g') && Ordered(ListsOf(g'), rank)
  {
    PatchStarts(g, p.operations, rank);
    var other := SequenceFinishes(ListsOf(g), ListsOf(g), p.operations, RefSet(AllAdds(p.operations)), rank);
    var most := if rounds < other then other else rounds;
    MoreRoundsSamePatch(ListsOf(g), p.operations, rounds, most);
    MoreRoundsSamePatch(ListsOf(g), p.operations, other, most);
    UpdatedIsNewest(g, ApplyAll(ListsOf(g), p.operations, rounds).work, rank);
  }

  lemma {:induction false} UpdatedIsNewest(g: Graph, w: Work, rank: LogicalId -> nat)
    requires Tidy(w, {}) && Ordered(w, rank) && FinalProblem(g, Updated(g, w)).None?
    ensures Newest(Updated(g, w)) && Ordered(ListsOf(Updated(g, w)), rank)
  {
    var g' := Updated(g, w);
    AcceptedIffValid(g', false);
    SoundIsWorkOk(g');
    var w' := ListsOf(g');
    assert TaskLane(w') == TaskLane(w) && GroupLane(w') == GroupLane(w);
    assert Live(w') == Live(w);
    forall ref ensures Known(w', ref) <==> Known(w, ref) {}
    forall m | m in Live(w') && m.Status() == Pending ensures ItemOrdered(w', rank, m) {
      assert ItemOrdered(w, rank, m);
      forall d | d in m.Mentions() ensures Below(w', rank, d, m.AsRef().Logical()) { assert Below(w, rank, d, m.AsRef().Logical()); }
    }
  }

  /** An operation that makes nothing depend on anything new. */
  predicate IsPlain(o: Operation) {
    o.op.SetPriority? || o.op.SetExecutorPolicy? || o.op.CancelPendingTask? || o.op.OtherOperation?
  }

  lemma {:induction false} PlainAddsNothing(ops: seq<Operation>)
    requires forall o :: o in ops ==> IsPlain(o)
    ensures AllAdds(ops) == []
    decreases |ops|
  {
    if ops != [] {
      assert ops[0] in ops;
      PlainAddsNothing(ops[1..]);
    }
  }

  lemma {:induction false} PlainFits(w: Work, o: Operation, allowed: set<Ref>, rank: LogicalId -> nat)
    requires IsPlain(o)
    ensures Fits(w, o, allowed, rank)
  {
  }

  /** On a valid graph whose active revisions are the newest, every patch that changes only priorities and executor
      policies and cancels Tasks returns, whatever the dependencies look like. */
  lemma {:induction false} PlainPatchTerminates(g: Graph, p: GraphPatch)
    requires Newest(g) && SearchesOk(g) && forall o :: o in p.operations ==> IsPlain(o)
    ensures PatchTerminates(g, p)
  {
    var rank, bound := AcceptedIsRanked(g);
    PlainAddsNothing(p.operations);
    forall o | o in p.operations ensures Fits(ListsOf(g), o, RefSet(AllAdds(p.operations)), rank) { PlainFits(ListsOf(g), o, RefSet(AllAdds(p.operations)), rank); }
    OrderedPatchTerminates(g, p, rank);
  }

  predicate IsAddition(o: Operation) {
    o.op.AddTask? || o.op.AddRepairTask? || o.op.AddVerificationTask? || o.op.AddGroup?
  }

  /** Each added item depends only on what is listed or was added before it. */
  ghost predicate BuildsUp(w: Work, adds: seq<Item>) {
    forall k :: 0 <= k < |adds| ==> RestsOn(w, adds, k)
  }

  ghost predicate RestsOn(w: Work, adds: seq<Item>, k: nat)
    requires k < |adds|
  {
    forall d :: d in adds[k].Mentions() ==> Known(w, d) || exists j :: 0 <= j < k && adds[j].AsRef() == d
  }

  /** The order with the added items on top, in the order in which they are added. */
  ghost function OnTop(rank: LogicalId -> nat, bound: nat, adds: seq<Item>, id: LogicalId): nat {
    if k: nat :| k < |adds| && adds[k].AsRef().Logical() == id then bound + 1 + k else rank(id)
  }

  lemma {:induction false} OnTopOfAdded(rank: LogicalId -> nat, bound: nat, adds: seq<Item>, k: nat)
    requires DistinctIdsOf(adds) && k < |adds|
    ensures OnTop(rank, bound, adds, adds[k].AsRef().Logical()) == bound + 1 + k
  {
  }

  lemma {:induction false} OnTopOfKnown(w: Work, rank: LogicalId -> nat, bound: nat, adds: seq<Item>, ref: Ref)
    requires (forall m :: m in adds ==> NewId(w, m.AsRef().Logical())) && Known(w, ref)
    ensures OnTop(rank, bound, adds, ref.Logical()) == rank(ref.Logical())
  {
    if k: nat :| k < |adds| && adds[k].AsRef().Logical() == ref.Logical() { assert false; }
  }

  lemma {:induction false} OldStaysOrdered(g: Graph, rank: LogicalId -> nat, bound: nat, adds: seq<Item>, top: LogicalId -> nat)
    requires Newest(g) && Ordered(ListsOf(g), rank) && forall m :: m in adds ==> NewId(ListsOf(g), m.AsRef().Logical())
    requires forall id :: top(id) == OnTop(rank, bound, adds, id)
    ensures Ordered(ListsOf(g), top)
  {
    var w := ListsOf(g);
    LiveIsLiveItems(g);
    forall m | m in Live(w) && m.Status() == Pending ensures ItemOrdered(w, top, m) {
      assert ItemOrdered(w, rank, m);
      LiveIsKnown(w, m);
      OnTopOfKnown(w, rank, bound, adds, m.AsRef());
      forall d | d in m.Mentions() ensures Below(w, top, d, m.AsRef().Logical()) {
        MentionIsListed(g, m, d);
        OnTopOfKnown(w, rank, bound, adds, d);
        assert Below(w, rank, d, m.AsRef().Logical());
      }
    }
  }

  lemma {:induction false} AddedIsOrdered(w: Work, rank: LogicalId -> nat, bound: nat, adds: seq<Item>, top: LogicalId -> nat, m: Item)
    requires DistinctIdsOf(adds) && BuildsUp(w, adds) && m in adds && forall x :: x in adds ==> NewId(w, x.AsRef().Logical())
    requires (forall id :: rank(id) <= bound) && forall id :: top(id) == OnTop(rank, bound, adds, id)
    ensures ItemOrdered(w, top, m) && MentionsListed(w, RefSet(adds), m)
  {
    var k :| 0 <= k < |adds| && adds[k] == m;
    OnTopOfAdded(rank, bound, adds, k);
    assert RestsOn(w, adds, k);
    forall d | d in m.Mentions() ensures Below(w, top, d, m.AsRef().Logical()) && (Known(w, d) || d in RefSet(adds)) {
      if Known(w, d) {
        OnTopOfKnown(w, rank, bound, adds, d);
      } else {
        var j :| 0 <= j < k && adds[j].AsRef() == d;
        OnTopOfAdded(rank, bound, adds, j);
        InRefs(adds, adds[j]);
      }
    }
  }

  lemma {:induction false} AddsAmongAll(ops: seq<Operation>, o: Operation, m: Item)
    requires o in ops && m in Adds(o)
    ensures m in AllAdds(ops)
    decreases |ops|
  {
    if ops[0] != o { AddsAmongAll(ops[1..], o, m); }
  }

  /** The same for patches that also add Tasks and Groups, each on top of what is listed or was added before. */
  lemma {:induction false} AdditivePatchTerminates(g: Graph, p: GraphPatch)
    requires Newest(g) && SearchesOk(g) && forall o :: o in p.operations ==> IsPlain(o) || (IsAddition(o) && SoundOperation(o))
    requires DistinctIdsOf(AllAdds(p.operations)) && BuildsUp(ListsOf(g), AllAdds(p.operations))
    requires forall m :: m in AllAdds(p.operations) ==> NewId(ListsOf(g), m.AsRef().Logical())
    ensures PatchTerminates(g, p)
  {
    var rank, bound := AcceptedIsRanked(g);
    var w, adds := ListsOf(g), AllAdds(p.operations);
    var top := id => OnTop(rank, bound, adds, id);
    OldStaysOrdered(g, rank, bound, adds, top);
    forall o | o in p.operations ensures Fits(w, o, RefSet(adds), top) {
      forall m | m in Adds(o) ensures ItemOrdered(w, top, m) && MentionsListed(w, RefSet(adds), m) {
        AddsAmongAll(p.operations, o, m);
        AddedIsOrdered(w, rank, bound, adds, top, m);
      }
      AdditionFits(w, o, RefSet(adds), top);
    }
    OrderedPatchTerminates(g, p, top);
  }

  lemma {:induction false} AdditionFits(w: Work, o: Operation, allowed: set<Ref>, rank: LogicalId -> nat)
    requires IsPlain(o) || (IsAddition(o) && SoundOperation(o))
    requires forall m :: m in Adds(o) ==> ItemOrdered(w, rank, m) && MentionsListed(w, allowed, m)
    ensures Fits(w, o, allowed, rank)
  {
  }

  // ---------------------------------------------------------------- one operation, exactly

  /** Some pending live Group has the superseded Task as a child, which a Group cannot replace. */
  ghost predicate ChildStands(w1: Work)
    requires WorkOk(w1) && w1.queue != []
  {
    exists g :: GroupItem(g) in Live(w1) && g.status == Pending && HasChild(g.children, w1.queue[0].source)
  }

  /** The edit of every operation but an expansion enters the worklist in a state in which it cannot raise; that
      of an expansion does unless a pending Group has the Task as a child. */
  lemma {:induction false} EntersClean(w: Work, o: Operation, future: set<Ref>)
    requires Tidy(w, future + RefSet(Adds(o))) && w.queue == [] && SoundOperation(o) && Enter(w, o).Ok?
    requires IdsApart(o, future) && Lists(w, o, future + RefSet(Adds(o)))
    ensures var w1 := Enter(w, o).value;
      w1.queue != [] ==> StartOk(w1) && (Clean(w1) <==> (o.op.ExpandTask? ==> !ChildStands(w1)))
  {
    var w1 := Enter(w, o).value;
    InRefSet(Adds(o));
    EnterKeepsTidy(w, o, future);
    if w1.queue != [] {
      if o.op.ExpandTask? { ExpansionChangesKind(w, o); } else { KindStays(w, o, future + RefSet(Adds(o))); }
      CleanStart(w1);
    }
  }

  lemma {:induction false} CleanStart(w1: Work)
    requires StartOk(w1) && LiveIsNewest(w1)
    ensures w1.queue[0].source.kind == w1.queue[0].target.kind ==> Clean(w1)
    ensures w1.queue[0].source.kind == TaskKind && w1.queue[0].target.kind == GroupKind ==> (Clean(w1) <==> !ChildStands(w1))
  {
  }

  lemma {:induction false} KindStays(w: Work, o: Operation, before: set<Ref>)
    requires Tidy(w, before) && w.queue == [] && SoundOperation(o) && (forall x :: x in Adds(o) ==> x.AsRef() in before) && Enter(w, o).Ok?
    requires !o.op.ExpandTask? && Enter(w, o).value.queue != []
    ensures var e := Enter(w, o).value.queue[0]; e.source.kind == e.target.kind
  {
    var w1 := Enter(w, o).value;
    var out, ins := EnterIsEdit(w, o, before);
    var x :| x in ins && Leads(o, w1, out.value, x);
    assert w1.queue[0] == Entry(out.value.AsRef(), x.AsRef());
  }

  lemma {:induction false} ExpansionChangesKind(w: Work, o: Operation)
    requires o.op.ExpandTask? && Enter(w, o).Ok?
    ensures var q := Enter(w, o).value.queue; |q| == 1 && q[0].source.kind == TaskKind && q[0].target.kind == GroupKind
  {
  }

  lemma {:induction false} GroupPassRaises(todo: seq<Group>, live: set<Ref>, w: Work, e: Entry, g: Group)
    requires g in todo && GroupHit(g, live, e) && ChildHit(g, e) && e.target.kind != TaskKind
    ensures GroupPass(todo, live, w, e).Err?
    decreases |todo|
  {
    if todo[0] != g && VisitGroup(todo[0], live, w, e).Ok? {
      assert todo == [todo[0]] + todo[1..];
      GroupPassRaises(todo[1..], live, VisitGroup(todo[0], live, w, e).value, e, g);
    }
  }

  /** Rewriting the child of a pending Group to a Group raises in the first round. */
  lemma {:induction false} ChildStandsRaises(w1: Work)
    requires StartOk(w1) && LiveIsNewest(w1) && ChildStands(w1)
    requires w1.queue[0].source.kind == TaskKind && w1.queue[0].target.kind == GroupKind
    ensures Round(w1).Err?
  {
    var e, w2 := w1.queue[0], w1.(queue := w1.queue[1..]);
    forall t | t in w1.tasks && t.AsRef() in Elements(w1.activeTasks) ensures !HasTask(w1.tasks, RevisedTask(t, e).AsRef()) {
      LiveTask(w1, t);
      NextRevisionUnused(w1, TaskItem(t), e);
      HasTaskIsHasRef(w1.tasks, RevisedTask(t, e).AsRef());
    }
    TaskPassCompletes(w2.tasks, Elements(w2.activeTasks), w2, e);
    var w3 := TaskPass(w2.tasks, Elements(w2.activeTasks), w2, e).value;
    var g :| GroupItem(g) in Live(w1) && g.status == Pending && HasChild(g.children, e.source);
    LiveMeans(w1, GroupItem(g));
    GroupPassRaises(w3.groups, Elements(w3.activeGroups), w3, e, g);
  }

  /** Some number of rounds is enough for the operation. */
  ghost predicate Finishes(w: Work, o: Operation) {
    exists rounds: nat :: ApplyOne(w, o, rounds) != Unfinished
  }

  /** Exactly when an operation on tidy lists finishes: it queues no rewrite, or no chain of pending dependents, the
      new dependencies included, comes back to an item, or it expands the child of a pending Group, which raises. */
  lemma {:induction false} OperationFinishesIff(w: Work, o: Operation, future: set<Ref>)
    requires Tidy(w, future + RefSet(Adds(o))) && w.queue == [] && SoundOperation(o) && Enter(w, o).Ok?
    requires IdsApart(o, future) && Lists(w, o, future + RefSet(Adds(o)))
    ensures var w1 := Enter(w, o).value;
      if w1.queue == [] then Finishes(w, o)
      else StartOk(w1) && (Finishes(w, o) <==> (o.op.ExpandTask? && ChildStands(w1)) || NoWalkRevisits(w1))
    ensures var w1 := Enter(w, o).value;
      forall rounds: nat :: ApplyOne(w, o, rounds).Raised? <==> w1.queue != [] && o.op.ExpandTask? && WorkOk(w1) && ChildStands(w1) && rounds > 0
  {
    var w1 := Enter(w, o).value;
    EntersClean(w, o, future);
    ApplyIsRun(w, o);
    if w1.queue != [] {
      if Clean(w1) {
        CleanFinishesIff(w1);
      } else {
        InRefSet(Adds(o));
        EnterKeepsTidy(w, o, future);
        ExpansionChangesKind(w, o);
        ChildStandsRaises(w1);
        RaisedFinishes(w1);
      }
    }
  }

  lemma {:induction false} ApplyIsRun(w: Work, o: Operation)
    requires w.queue == [] && Enter(w, o).Ok?
    ensures var w1 := Enter(w, o).value;
      && (Finishes(w, o) <==> Terminates(w1)) && (w1.queue == [] ==> Terminates(w1))
      && forall rounds: nat :: ApplyOne(w, o, rounds) == RunRounds(w1, rounds)
  {
    var w1 := Enter(w, o).value;
    assert w.(queue := []) == w;
    forall rounds: nat ensures ApplyOne(w, o, rounds) == RunRounds(w1, rounds) {}
    if Terminates(w1) { var rounds: nat :| RunRounds(w1, rounds) != Unfinished; assert ApplyOne(w, o, rounds) != Unfinished; }
    if Finishes(w, o) { var rounds: nat :| ApplyOne(w, o, rounds) != Unfinished; assert RunRounds(w1, rounds) != Unfinished; }
    if w1.queue == [] { assert RunRounds(w1, 0) != Unfinished; }
  }

  lemma {:induction false} CleanFinishesIff(w1: Work)
    requires StartOk(w1) && Clean(w1)
    ensures Terminates(w1) <==> NoWalkRevisits(w1)
    ensures forall rounds: nat :: !RunRounds(w1, rounds).Raised?
  {
    TerminatesIffNoRevisit(w1);
    forall rounds: nat ensures !RunRounds(w1, rounds).Raised? { CleanNeverRaises(w1, rounds); }
  }

  lemma {:induction false} RaisedFinishes(w1: Work)
    requires w1.queue != [] && Round(w1).Err?
    ensures Terminates(w1) && forall rounds: nat :: RunRounds(w1, rounds).Raised? <==> rounds > 0
  {
    assert RunRounds(w1, 1).Raised?;
  }

  // ---------------------------------------------------------------- whole patches, exactly

  /** The operation is refused, or queues no rewrite, or meets the condition under which its worklist leaves. */
  ghost predicate Passes(w: Work, o: Operation) {
    Enter(w, o).Ok? ==>
      var w1 := Enter(w, o).value;
      w1.queue == [] || (o.op.ExpandTask? && WorkOk(w1) && ChildStands(w1)) || (StartOk(w1) && NoWalkRevisits(w1))
  }

  /** So does every operation of the sequence, each on the lists that the ones before it leave. */
  ghost predicate AllPass(w: Work, ops: seq<Operation>)
    decreases |ops|
  {
    ops == [] || (Passes(w, ops[0]) && forall rounds: nat, w' :: ApplyOne(w, ops[0], rounds) == Done(w') ==> AllPass(w', ops[1..]))
  }

  lemma {:induction false} PassesIffFinishes(w0: Work, w: Work, ops: seq<Operation>, all: set<Ref>)
    requires Underway(w0, w, ops, all) && ops != []
    ensures Passes(w, ops[0]) <==> Finishes(w, ops[0])
  {
    NextUnderway(w0, w, ops, all);
    if Enter(w, ops[0]).Ok? {
      OperationFinishesIff(w, ops[0], RefSet(AllAdds(ops[1..])));
    } else {
      assert w.(queue := []) == w;
      assert ApplyOne(w, ops[0], 0) != Unfinished;
    }
  }

  lemma {:induction false} SameDone(w: Work, o: Operation, one: nat, other: nat, w': Work)
    requires ApplyOne(w, o, one) == Done(w') && ApplyOne(w, o, other) != Unfinished
    ensures ApplyOne(w, o, other) == Done(w')
  {
    if one < other { MoreRoundsSameOne(w, o, one, other); } else { MoreRoundsSameOne(w, o, other, one); }
  }

  lemma {:induction false} EndsIfAllPass(w0: Work, w: Work, ops: seq<Operation>, all: set<Ref>) returns (rounds: nat)
    requires Underway(w0, w, ops, all) && AllPass(w, ops)
    ensures ApplyAll(w, ops, rounds) != Unfinished
    decreases |ops|
  {
    rounds := 0;
    if ops != [] {
      PassesIffFinishes(w0, w, ops, all);
      rounds :| ApplyOne(w, ops[0], rounds) != Unfinished;
      if ApplyOne(w, ops[0], rounds).Done? {
        var w' := ApplyOne(w, ops[0], rounds).work;
        UnderwayStep(w0, w, ops, all, rounds, w');
        var later := EndsIfAllPass(w0, w', ops[1..], all);
        var both := if rounds < later then later else rounds;
        MoreRoundsSameOne(w, ops[0], rounds, both);
        MoreRoundsSamePatch(w', ops[1..], later, both);
        rounds := both;
      }
    }
  }

  lemma {:induction false} AllPassIfEnds(w0: Work, w: Work, ops: seq<Operation>, all: set<Ref>, rounds: nat)
    requires Underway(w0, w, ops, all) && ApplyAll(w, ops, rounds) != Unfinished
    ensures AllPass(w, ops)
    decreases |ops|
  {
    if ops != [] {
      assert ApplyOne(w, ops[0], rounds) != Unfinished;
      PassesIffFinishes(w0, w, ops, all);
      forall other: nat, w' | ApplyOne(w, ops[0], other) == Done(w') ensures AllPass(w', ops[1..]) {
        SameDone(w, ops[0], other, rounds, w');
        UnderwayStep(w0, w, ops, all, rounds, w');
        AllPassIfEnds(w0, w', ops[1..], all, rounds);
      }
    }
  }

  /** A patch whose additions have new, different ids and which makes things depend only on what is listed or added
      returns exactly when it is refused at once or each operation that it comes to passes. */
  lemma {:induction false} PatchTerminatesIff(g: Graph, p: GraphPatch)
    requires Newest(g) && DistinctIdsOf(AllAdds(p.operations))
    requires forall m :: m in AllAdds(p.operations) ==> NewId(ListsOf(g), m.AsRef().Logical())
    requires forall o :: o in p.operations ==> SoundOperation(o) && Lists(ListsOf(g), o, RefSet(AllAdds(p.operations)))
    ensures PatchTerminates(g, p) <==> PatchError(g, p).Some? || AllPass(ListsOf(g), p.operations)
  {
    var w, all := ListsOf(g), RefSet(AllAdds(p.operations));
    UnderwayAtStart(g, p.operations);
    if PatchError(g, p).Some? {
      assert Apply(g, p, 0) != StillRunning;
    } else if AllPass(w, p.operations) {
      var rounds := EndsIfAllPass(w, w, p.operations, all);
      assert Apply(g, p, rounds) != StillRunning;
    } else if PatchTerminates(g, p) {
      var rounds: nat :| Apply(g, p, rounds) != StillRunning;
      AllPassIfEnds(w, w, p.operations, all, rounds);
    }
  }

  // ---------------------------------------------------------------- the failing family

  /** `d` is the active revision of the Task that the operation names. */
  predicate SelfNamed(w: Work, o: Operation, d: Ref) {
    d in w.activeTasks && d.kind == TaskKind && o.taskId == Some(d.id)
  }

  /** Making a pending Task depend on itself is never refused: the source looks for cycles only after the
      worklist, which does not leave. */
  lemma {:induction false} SelfDependencyNeverReturns(g: Graph, p: GraphPatch, rounds: nat)
    requires Newest(g) && PatchError(g, p).None?
    requires var o := p.operations[0];
      o.op.ReplaceDependencies? && Enter(ListsOf(g), o).Ok?
      && (exists d :: d in o.dependencies && SelfNamed(ListsOf(g), o, d))
      && forall d :: d in o.dependencies ==> Known(ListsOf(g), d)
    ensures Apply(g, p, rounds) == StillRunning
  {
    var w, o := ListsOf(g), p.operations[0];
    assert w.(queue := []) == w;
    NewestIsTidy(g, {});
    assert {} + RefSet(Adds(o)) == {};
    EntersClean(w, o, {});
    RevisionOfItself(w, o);
    assert RunRounds(Enter(w, o).value, rounds) == Unfinished;
  }

  lemma {:induction false} RevisionOfItself(w: Work, o: Operation)
    requires WorkOk(w) && LiveIsNewest(w) && w.queue == [] && o.op.ReplaceDependencies? && Enter(w, o).Ok?
    requires exists d :: d in o.dependencies && SelfNamed(w, o, d)
    requires StartOk(Enter(w, o).value) && Clean(Enter(w, o).value)
    ensures forall rounds: nat :: RunRounds(Enter(w, o).value, rounds) == Unfinished
  {
    var t := ReviseEnters(w, o);
    var r, w1 := RevisionAsked(t, o), Enter(w, o).value;
    ActiveTaskIsLive(w, o);
    var d :| d in o.dependencies && SelfNamed(w, o, d);
    ActiveRefOfTask(w, t, d);
    RevisionIsLive(w, t, r);
    var i :| 0 <= i < |Live(w1)| && Live(w1)[i] == TaskItem(r);
    SelfDependencyDiverges(w1, i);
  }

  lemma {:induction false} RevisionIsLive(w: Work, t: Task, r: Task)
    requires WorkOk(w) && LiveIsNewest(w) && TaskItem(t) in Live(w) && r.id == t.id && r.revision == t.revision + 1
    ensures WorkOk(Supersede(w, t, r)) && TaskItem(r) in Live(Supersede(w, t, r))
  {
    NextIsNewer(w, TaskItem(t), TaskItem(r));
    SupersedingEdits(w, t, r);
    assert TaskItem(r) in [TaskItem(r)];
  }

  lemma {:induction false} ActiveRefOfTask(w: Work, t: Task, d: Ref)
    requires WorkOk(w) && LiveIsNewest(w) && TaskItem(t) in Live(w) && d in w.activeTasks && d.kind == TaskKind && d.id == t.id
    ensures d == t.AsRef()
  {
    var j := LiveAt(w, d);
    SameIdSameItem(w, TaskItem(t), Live(w)[j]);
  }
}
