/** One half of the graph (Tasks or Groups) under a rebase: old items are settled in place, the replacements
    are appended, and the active references are renamed. */
module RebaseLanes {
  import opened Core
  import opened Items
  import opened Validation
  import opened Rebase

  ghost function ReplacedItems(g: Graph, replaced: set<Ref>, live: seq<Item>, intent: Intent): (r: seq<Item>) {
    if live == [] then []
    else (if live[0].AsRef() in replaced then [Replacement(g, replaced, live[0], intent)] else []) + ReplacedItems(g, replaced, live[1..], intent)
  }

  lemma {:induction false} ReplacedTaskItems(g: Graph, replaced: set<Ref>, live: seq<Item>, intent: Intent)
    requires forall m :: m in live ==> m.TaskItem?
    ensures TaskItems(ReplacedTasks(g, replaced, live, intent)) == ReplacedItems(g, replaced, live, intent)
    decreases |live|
  {
    if live != [] {
      assert live[0] in live;
      ReplacedTaskItems(g, replaced, live[1..], intent);
    }
  }

  lemma {:induction false} ReplacedGroupItems(g: Graph, replaced: set<Ref>, live: seq<Item>, intent: Intent)
    requires forall m :: m in live ==> m.GroupItem?
    ensures GroupItems(ReplacedGroups(g, replaced, live, intent)) == ReplacedItems(g, replaced, live, intent)
    decreases |live|
  {
    if live != [] {
      assert live[0] in live;
      ReplacedGroupItems(g, replaced, live[1..], intent);
    }
  }

  lemma {:induction false} ReplacementRef(g: Graph, replaced: set<Ref>, m: Item, intent: Intent)
    ensures Replacement(g, replaced, m, intent).AsRef() == FreshRef(g, m.AsRef())
    ensures FreshRef(g, m.AsRef()).Logical() == m.AsRef().Logical()
    ensures forall o :: o in AllItems(g) ==> o.AsRef() != FreshRef(g, m.AsRef())
  {
  }

  /** Every replaced live item has its replacement, and nothing else is appended. */
  lemma {:induction false} ReplacedItemsMeans(g: Graph, replaced: set<Ref>, live: seq<Item>, intent: Intent, m': Item)
    ensures m' in ReplacedItems(g, replaced, live, intent) <==>
      exists i :: 0 <= i < |live| && live[i].AsRef() in replaced && m' == Replacement(g, replaced, live[i], intent)
    decreases |live|
  {
    if live != [] {
      ReplacedItemsMeans(g, replaced, live[1..], intent, m');
      assert forall i :: 0 <= i < |live[1..]| ==> live[1..][i] == live[i + 1];
      if i :| 0 <= i < |live| && live[i].AsRef() in replaced && m' == Replacement(g, replaced, live[i], intent) {
        if i > 0 { assert live[1..][i - 1] == live[i]; }
      }
    }
  }

  /** No two replaced live items share a logical id. */
  ghost predicate DistinctIds(live: seq<Item>, replaced: set<Ref>) {
    forall i, j :: 0 <= i < j < |live| && live[i].AsRef() in replaced && live[j].AsRef() in replaced ==>
      live[i].AsRef().Logical() != live[j].AsRef().Logical()
  }

  lemma {:induction false} ReplacedItemsUnique(g: Graph, replaced: set<Ref>, live: seq<Item>, intent: Intent)
    requires DistinctIds(live, replaced)
    ensures UniqueRefs(ReplacedItems(g, replaced, live, intent))
    decreases |live|
  {
    if live != [] {
      var rest := live[1..];
      assert forall i :: 0 <= i < |rest| ==> rest[i] == live[i + 1];
      ReplacedItemsUnique(g, replaced, rest, intent);
      if live[0].AsRef() in replaced {
        forall m' | m' in ReplacedItems(g, replaced, rest, intent)
          ensures m'.AsRef() != Replacement(g, replaced, live[0], intent).AsRef()
        {
          ReplacedItemsMeans(g, replaced, rest, intent, m');
          var i :| 0 <= i < |rest| && rest[i].AsRef() in replaced && m' == Replacement(g, replaced, rest[i], intent);
          ReplacementRef(g, replaced, rest[i], intent);
          ReplacementRef(g, replaced, live[0], intent);
          assert live[0].AsRef().Logical() != live[i + 1].AsRef().Logical();
        }
      }
    }
  }

  ghost function MapItems(f: Item -> Item, items: seq<Item>): (r: seq<Item>) {
    seq(|items|, i requires 0 <= i < |items| => f(items[i]))
  }

  ghost function RebasedItems(g: Graph, replaced: set<Ref>, settle: Item -> Item, items: seq<Item>, live: seq<Item>, intent: Intent): seq<Item> {
    MapItems(settle, items) + ReplacedItems(g, replaced, live, intent)
  }

  /** The premises of the lane lemmas. */
  ghost predicate LaneReady(g: Graph, settle: Item -> Item, items: seq<Item>, refs: seq<Ref>) {
    && UniqueRefs(items) && ActiveOk(items, refs)
    && (forall m :: m in items ==> m in AllItems(g))
    && forall m :: settle(m).AsRef() == m.AsRef()
  }

  lemma {:induction false} RebasedUnique(g: Graph, replaced: set<Ref>, settle: Item -> Item, items: seq<Item>, refs: seq<Ref>, intent: Intent)
    requires LaneReady(g, settle, items, refs) && DistinctIds(Named(items, refs), replaced)
    ensures UniqueRefs(RebasedItems(g, replaced, settle, items, Named(items, refs), intent))
  {
    var live := Named(items, refs);
    var prior, extra := MapItems(settle, items), ReplacedItems(g, replaced, live, intent);
    ReplacedItemsUnique(g, replaced, live, intent);
    forall i, j | 0 <= i < |prior| && 0 <= j < |extra| ensures prior[i].AsRef() != extra[j].AsRef() {
      assert extra[j] in extra;
      ReplacedItemsMeans(g, replaced, live, intent, extra[j]);
      var k :| 0 <= k < |live| && live[k].AsRef() in replaced && extra[j] == Replacement(g, replaced, live[k], intent);
      ReplacementRef(g, replaced, live[k], intent);
      assert items[i] in items;
    }
    forall i, j | 0 <= i < j < |prior| ensures prior[i].AsRef() != prior[j].AsRef() {
      assert items[i].AsRef() != items[j].AsRef();
    }
  }

  /** What a live item becomes. */
  ghost function Became(g: Graph, replaced: set<Ref>, settle: Item -> Item, m: Item, intent: Intent): Item {
    if m.AsRef() in replaced then Replacement(g, replaced, m, intent) else settle(m)
  }

  lemma {:induction false} BecameListed(g: Graph, replaced: set<Ref>, settle: Item -> Item, items: seq<Item>, refs: seq<Ref>, intent: Intent, i: nat)
    requires LaneReady(g, settle, items, refs) && i < |refs|
    ensures var m := Named(items, refs)[i]; var m' := Became(g, replaced, settle, m, intent);
      m' in RebasedItems(g, replaced, settle, items, Named(items, refs), intent) && m'.AsRef() == Renamed(g, replaced, refs[i])
  {
    var live := Named(items, refs);
    var m := live[i];
    assert RefsOf(live)[i] == refs[i];
    if m.AsRef() in replaced {
      ReplacedItemsMeans(g, replaced, live, intent, Replacement(g, replaced, m, intent));
      ReplacementRef(g, replaced, m, intent);
    } else {
      var k :| 0 <= k < |items| && items[k] == m;
      assert MapItems(settle, items)[k] == settle(m);
    }
  }

  /** The renamed active references name exactly what the live items became, and stay distinct exactly when
      no two replaced items share a logical id. */
  lemma {:induction false} RebasedLive(g: Graph, replaced: set<Ref>, settle: Item -> Item, items: seq<Item>, refs: seq<Ref>, intent: Intent)
    requires LaneReady(g, settle, items, refs)
    ensures var items' := RebasedItems(g, replaced, settle, items, Named(items, refs), intent);
      var refs' := RenamedAll(g, replaced, refs);
      && (DistinctIds(Named(items, refs), replaced) <==> ActiveOk(items', refs'))
      && (DistinctIds(Named(items, refs), replaced) ==>
            |Named(items', refs')| == |refs|
            && forall i :: 0 <= i < |refs| ==> Named(items', refs')[i] == Became(g, replaced, settle, Named(items, refs)[i], intent))
  {
    var live, refs' := Named(items, refs), RenamedAll(g, replaced, refs);
    var items' := RebasedItems(g, replaced, settle, items, live, intent);
    forall i | 0 <= i < |refs| ensures HasRef(items', refs'[i]) {
      BecameListed(g, replaced, settle, items, refs, intent, i);
      var m' := Became(g, replaced, settle, live[i], intent);
      var k :| 0 <= k < |items'| && items'[k] == m';
    }
    forall i, j | 0 <= i < j < |refs|
      ensures refs'[i] == refs'[j] <==> live[i].AsRef() in replaced && live[j].AsRef() in replaced && live[i].AsRef().Logical() == live[j].AsRef().Logical()
    {
      RenamedApart(g, replaced, items, refs, i, j, intent);
    }
    if DistinctIds(live, replaced) {
      RebasedUnique(g, replaced, settle, items, refs, intent);
      forall i | 0 <= i < |refs| ensures Named(items', refs')[i] == Became(g, replaced, settle, live[i], intent) {
        BecameListed(g, replaced, settle, items, refs, intent, i);
        LookupUnique(items', Became(g, replaced, settle, live[i], intent));
      }
    }
  }

  lemma {:induction false} RenamedApart(g: Graph, replaced: set<Ref>, items: seq<Item>, refs: seq<Ref>, i: nat, j: nat, intent: Intent)
    requires ActiveOk(items, refs) && (forall m :: m in items ==> m in AllItems(g)) && i < j < |refs|
    ensures var live := Named(items, refs);
      live[i].AsRef() == refs[i] && live[j].AsRef() == refs[j]
      && (Renamed(g, replaced, refs[i]) == Renamed(g, replaced, refs[j]) <==>
            refs[i] in replaced && refs[j] in replaced && refs[i].Logical() == refs[j].Logical())
  {
  }
}
