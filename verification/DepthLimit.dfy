/** Exactly when the depth limit of the search bounds the chains of the graph. The search descends only into
    items that it has not visited, so what it counts are the chains on which every item is met first. */
module DepthLimit {
  import opened Core
  import opened Acyclic

  /** All that a chain from one of these items leads to. */
  ghost function Reach(edges: Edges, keys: seq<Ref>): set<Ref> {
    set r | r in edges.Keys && exists k :: k in keys && Linked(edges, k, r)
  }

  /** The list from which the `k`-th item of a path is taken: the listed items for the first one, the
      dependencies of its predecessor for any other. */
  ghost function ListAt(edges: Edges, keys: seq<Ref>, path: seq<Ref>, k: nat): seq<Ref>
    requires k < |path|
  {
    if k == 0 then keys else if path[k - 1] in edges then edges[path[k - 1]] else []
  }

  /** The `k`-th item is at place `choices[k]` of its list, and nothing listed before a choice made so far,
      in any of the lists, leads to it. */
  ghost predicate MetFirst(edges: Edges, keys: seq<Ref>, path: seq<Ref>, choices: seq<nat>, k: nat)
    requires k < |path| == |choices|
  {
    && choices[k] < |ListAt(edges, keys, path, k)| && ListAt(edges, keys, path, k)[choices[k]] == path[k]
    && forall m: nat, j: nat :: m <= k && j < choices[m] && j < |ListAt(edges, keys, path, m)| ==>
         !Linked(edges, ListAt(edges, keys, path, m)[j], path[k])
  }

  /** A chain from a listed item on which no item is reached earlier: not from an item listed before the first
      one, nor from an earlier sibling dependency of any item on the way. */
  ghost predicate FirstPath(edges: Edges, keys: seq<Ref>, path: seq<Ref>) {
    exists choices: seq<nat> :: |choices| == |path| && forall k: nat :: k < |path| ==> MetFirst(edges, keys, path, choices, k)
  }

  // ---------------------------------------------------------------- the same, step by step

  /** The rest of a first path, `before` being all that was reached before. */
  ghost predicate First(edges: Edges, before: set<Ref>, keys: seq<Ref>, path: seq<Ref>)
    decreases |path|
  {
    path == [] || exists c: nat :: c < |keys| && FirstVia(edges, before, keys, path, c)
  }

  ghost predicate FirstVia(edges: Edges, before: set<Ref>, keys: seq<Ref>, path: seq<Ref>, c: nat)
    requires path != [] && c < |keys|
    decreases |path|, 0
  {
    var now := before + Reach(edges, keys[..c]);
    keys[c] == path[0] && path[0] in edges && path[0] !in now && First(edges, now, edges[path[0]], path[1..])
  }

  /** Choices for the rest of a path; everything on it lies outside `before`. */
  ghost predicate Past(edges: Edges, before: set<Ref>, keys: seq<Ref>, path: seq<Ref>, choices: seq<nat>) {
    && |choices| == |path| && forall k: nat :: k < |path| ==> path[k] in edges && path[k] !in before && MetFirst(edges, keys, path, choices, k)
  }

  lemma {:induction false} TailMetFirst(edges: Edges, keys: seq<Ref>, path: seq<Ref>, choices: seq<nat>, k: nat)
    requires 0 < k < |path| == |choices| && path[0] in edges
    requires choices[0] < |keys| && keys[choices[0]] == path[0]
    ensures MetFirst(edges, keys, path, choices, k) <==>
      && MetFirst(edges, edges[path[0]], path[1..], choices[1..], k - 1)
      && forall j: nat :: j < choices[0] ==> !Linked(edges, keys[j], path[k])
  {
    var keys', path', choices' := edges[path[0]], path[1..], choices[1..];
    forall m: nat | 0 < m <= k ensures ListAt(edges, keys, path, m) == ListAt(edges, keys', path', m - 1) && choices[m] == choices'[m - 1] {}
    if MetFirst(edges, keys, path, choices, k) {
      forall m: nat, j: nat | m <= k - 1 && j < choices'[m] && j < |ListAt(edges, keys', path', m)|
        ensures !Linked(edges, ListAt(edges, keys', path', m)[j], path'[k - 1])
      {
        assert ListAt(edges, keys, path, m + 1) == ListAt(edges, keys', path', m);
      }
      forall j: nat | j < choices[0] ensures !Linked(edges, keys[j], path[k]) { assert ListAt(edges, keys, path, 0)[j] == keys[j]; }
    }
  }

  lemma {:induction false} NotReached(edges: Edges, keys: seq<Ref>, c: nat, r: Ref)
    requires c <= |keys| && r in edges
    ensures r !in Reach(edges, keys[..c]) <==> forall j: nat :: j < c ==> !Linked(edges, keys[j], r)
  {
    if r in Reach(edges, keys[..c]) {
      var k :| k in keys[..c] && Linked(edges, k, r);
      var j :| 0 <= j < c && keys[..c][j] == k;
    }
    if j: nat :| j < c && Linked(edges, keys[j], r) { assert keys[..c][j] in keys[..c]; }
  }

  lemma {:induction false} PastIsFirst(edges: Edges, before: set<Ref>, keys: seq<Ref>, path: seq<Ref>, choices: seq<nat>)
    requires Past(edges, before, keys, path, choices)
    ensures First(edges, before, keys, path)
    decreases |path|
  {
    if path != [] {
      var c := choices[0];
      assert MetFirst(edges, keys, path, choices, 0);
      var now := before + Reach(edges, keys[..c]);
      forall k: nat | k < |path| ensures path[k] !in now {
        assert MetFirst(edges, keys, path, choices, k);
        assert forall j: nat :: j < c ==> !Linked(edges, ListAt(edges, keys, path, 0)[j], path[k]);
        NotReached(edges, keys, c, path[k]);
      }
      forall k: nat | k < |path[1..]| ensures path[1..][k] in edges && path[1..][k] !in now && MetFirst(edges, edges[path[0]], path[1..], choices[1..], k) {
        assert path[1..][k] == path[k + 1] && MetFirst(edges, keys, path, choices, k + 1);
        TailMetFirst(edges, keys, path, choices, k + 1);
      }
      PastIsFirst(edges, now, edges[path[0]], path[1..], choices[1..]);
      assert FirstVia(edges, before, keys, path, c);
    }
  }

  lemma {:induction false} FirstIsPast(edges: Edges, before: set<Ref>, keys: seq<Ref>, path: seq<Ref>) returns (choices: seq<nat>)
    requires First(edges, before, keys, path)
    ensures Past(edges, before, keys, path, choices)
    decreases |path|
  {
    if path == [] {
      choices := [];
    } else {
      var c: nat :| c < |keys| && FirstVia(edges, before, keys, path, c);
      var now := before + Reach(edges, keys[..c]);
      var rest := FirstIsPast(edges, now, edges[path[0]], path[1..]);
      choices := [c] + rest;
      assert choices[1..] == rest;
      forall k: nat | k < |path| ensures path[k] in edges && path[k] !in before && MetFirst(edges, keys, path, choices, k) {
        if k > 0 { assert path[1..][k - 1] == path[k]; }
        assert path[k] in edges && path[k] !in now;
        NotReached(edges, keys, c, path[k]);
        if k > 0 { TailMetFirst(edges, keys, path, choices, k); }
      }
    }
  }

  lemma {:induction false} PathInEdges(edges: Edges, keys: seq<Ref>, path: seq<Ref>, choices: seq<nat>, k: nat)
    requires Listed(edges, keys) && k < |path| == |choices| && forall m: nat :: m < |path| ==> MetFirst(edges, keys, path, choices, m)
    ensures path[k] in edges
  {
    assert MetFirst(edges, keys, path, choices, k);
    assert path[k] in ListAt(edges, keys, path, k);
  }

  lemma {:induction false} FirstPathIsChain(edges: Edges, keys: seq<Ref>, path: seq<Ref>)
    requires Listed(edges, keys) && FirstPath(edges, keys, path)
    ensures IsChain(edges, path)
  {
    var choices: seq<nat> :| |choices| == |path| && forall k: nat :: k < |path| ==> MetFirst(edges, keys, path, choices, k);
    forall k: nat | k < |path| ensures path[k] in edges && path[k] in ListAt(edges, keys, path, k) {
      PathInEdges(edges, keys, path, choices, k);
      assert MetFirst(edges, keys, path, choices, k);
    }
  }

  lemma {:induction false} FirstPathIff(edges: Edges, keys: seq<Ref>, path: seq<Ref>)
    requires Listed(edges, keys)
    ensures FirstPath(edges, keys, path) <==> First(edges, {}, keys, path)
  {
    if FirstPath(edges, keys, path) {
      var choices: seq<nat> :| |choices| == |path| && forall k: nat :: k < |path| ==> MetFirst(edges, keys, path, choices, k);
      forall k: nat | k < |path| ensures path[k] in edges { PathInEdges(edges, keys, path, choices, k); }
      PastIsFirst(edges, {}, keys, path, choices);
    }
    if First(edges, {}, keys, path) {
      var choices := FirstIsPast(edges, {}, keys, path);
    }
  }

  // ---------------------------------------------------------------- what the search marks

  lemma {:induction false} StaysMarked(edges: Edges, marked: set<Ref>, path: seq<Ref>)
    requires Finished(edges, marked) && IsChain(edges, path) && path != [] && path[0] in marked
    ensures path[|path| - 1] in marked
    decreases |path|
  {
    if |path| > 1 {
      var order :| Topological(edges, order) && Elements(order) == marked;
      var i :| 0 <= i < |order| && order[i] == path[0];
      assert path[1] in edges[order[i]] && path[1] in order[..i];
      ChainTail(edges, path);
      StaysMarked(edges, marked, path[1..]);
    }
  }

  lemma {:induction false} ChainTail(edges: Edges, path: seq<Ref>)
    requires IsChain(edges, path) && |path| > 1
    ensures IsChain(edges, path[1..]) && path[1] in edges[path[0]]
  {
    var rest := path[1..];
    forall i | 0 < i < |rest| ensures rest[i] in edges[rest[i - 1]] { assert rest[i] == path[i + 1] && rest[i - 1] == path[i]; }
  }

  lemma {:induction false} ReachCons(edges: Edges, keys: seq<Ref>)
    requires keys != []
    ensures Reach(edges, keys) == Reach(edges, [keys[0]]) + Reach(edges, keys[1..])
  {
    assert keys == [keys[0]] + keys[1..];
  }

  lemma {:induction false} ReachOne(edges: Edges, key: Ref)
    requires key in edges
    ensures Reach(edges, edges[key]) + {key} <= Reach(edges, [key])
  {
    LinkedSelf(edges, key);
    forall r | r in Reach(edges, edges[key]) ensures r in Reach(edges, [key]) {
      var d :| d in edges[key] && Linked(edges, d, r);
      LinkedFurther(edges, key, d, r);
      assert key in [key];
    }
    assert key in [key];
  }

  lemma {:induction false} VisitMarksOnly(edges: Edges, limit: int, visiting: set<Ref>, visited: set<Ref>, key: Ref)
    requires Closed(edges) && key in edges && Visit(edges, limit, visiting, visited, key).Ok?
    ensures Visit(edges, limit, visiting, visited, key).value.marked <= visited + Reach(edges, [key])
    decreases |edges.Keys - visiting|, 0
  {
    if key !in visited {
      SmallerSet(edges.Keys - (visiting + {key}), edges.Keys - visiting);
      VisitAllMarksOnly(edges, limit, visiting + {key}, visited, edges[key]);
      ReachOne(edges, key);
    }
  }

  lemma {:induction false} VisitAllMarksOnly(edges: Edges, limit: int, visiting: set<Ref>, visited: set<Ref>, keys: seq<Ref>)
    requires Closed(edges) && (forall k :: k in keys ==> k in edges) && VisitAll(edges, limit, visiting, visited, keys).Ok?
    ensures VisitAll(edges, limit, visiting, visited, keys).value.marked <= visited + Reach(edges, keys)
    decreases |edges.Keys - visiting|, 1 + |keys|
  {
    if keys != [] {
      VisitMarksOnly(edges, limit, visiting, visited, keys[0]);
      VisitAllMarksOnly(edges, limit, visiting, Visit(edges, limit, visiting, visited, keys[0]).value.marked, keys[1..]);
      ReachCons(edges, keys);
    }
  }

  /** A visit marks exactly what the item leads to. */
  lemma {:induction false} VisitMarks(edges: Edges, limit: int, visiting: set<Ref>, visited: set<Ref>, key: Ref)
    requires Closed(edges) && key in edges && Finished(edges, visited) && Visit(edges, limit, visiting, visited, key).Ok?
    ensures Visit(edges, limit, visiting, visited, key).value.marked == visited + Reach(edges, [key])
    ensures Finished(edges, visited + Reach(edges, [key]))
  {
    var marked := Visit(edges, limit, visiting, visited, key).value.marked;
    VisitFinishes(edges, limit, visiting, visited, key);
    VisitMarksOnly(edges, limit, visiting, visited, key);
    forall r | r in Reach(edges, [key]) ensures r in marked {
      var k :| k in [key] && Linked(edges, k, r);
      var path :| IsChain(edges, path) && path != [] && path[0] == k && path[|path| - 1] == r;
      StaysMarked(edges, marked, path);
    }
  }

  // ---------------------------------------------------------------- what the search counts

  /** A first path through the first listed item. */
  ghost predicate Heads(edges: Edges, before: set<Ref>, key: Ref, path: seq<Ref>) {
    path != [] && path[0] == key && key in edges && key !in before && First(edges, before, edges[key], path[1..])
  }

  lemma {:induction false} Choice(edges: Edges, before: set<Ref>, keys: seq<Ref>, path: seq<Ref>) returns (c: nat)
    requires path != [] && First(edges, before, keys, path)
    ensures c < |keys| && FirstVia(edges, before, keys, path, c)
  {
    c :| c < |keys| && FirstVia(edges, before, keys, path, c);
  }

  lemma {:induction false} FirstCons(edges: Edges, before: set<Ref>, keys: seq<Ref>, path: seq<Ref>)
    requires keys != []
    ensures First(edges, before, keys, path) <==>
      path == [] || Heads(edges, before, keys[0], path) || First(edges, before + Reach(edges, [keys[0]]), keys[1..], path)
  {
    var rest, past := keys[1..], before + Reach(edges, [keys[0]]);
    assert before + Reach(edges, keys[..0]) == before;
    forall c: nat | 0 < c < |keys| ensures before + Reach(edges, keys[..c]) == past + Reach(edges, rest[..c - 1]) && keys[c] == rest[c - 1] {
      ReachCons(edges, keys[..c]);
      assert keys[..c][0] == keys[0] && keys[..c][1..] == rest[..c - 1];
    }
    if path != [] && First(edges, before, keys, path) {
      var c := Choice(edges, before, keys, path);
      if c > 0 { assert FirstVia(edges, past, rest, path, c - 1); }
    }
    if Heads(edges, before, keys[0], path) { assert FirstVia(edges, before, keys, path, 0); }
    if path != [] && First(edges, past, rest, path) {
      var c := Choice(edges, past, rest, path);
      assert FirstVia(edges, before, keys, path, c + 1);
    }
  }

  /** The depth is the length of a longest first path. */
  ghost predicate Counts(edges: Edges, before: set<Ref>, keys: seq<Ref>, depth: nat) {
    && (exists path :: First(edges, before, keys, path) && |path| == depth)
    && forall path :: First(edges, before, keys, path) ==> |path| <= depth
  }

  ghost predicate CountsOne(edges: Edges, before: set<Ref>, key: Ref, depth: nat) {
    && (depth > 0 ==> exists path :: Heads(edges, before, key, path) && |path| == depth)
    && forall path :: Heads(edges, before, key, path) ==> |path| <= depth
  }

  lemma {:induction false} VisitCounts(edges: Edges, limit: int, visiting: set<Ref>, visited: set<Ref>, key: Ref)
    requires Closed(edges) && key in edges && Finished(edges, visited) && Visit(edges, limit, visiting, visited, key).Ok?
    ensures CountsOne(edges, visited, key, Visit(edges, limit, visiting, visited, key).value.depth)
    decreases |edges.Keys - visiting|, 0
  {
    if key !in visited {
      SmallerSet(edges.Keys - (visiting + {key}), edges.Keys - visiting);
      VisitAllCounts(edges, limit, visiting + {key}, visited, edges[key]);
      CountsMore(edges, visited, key, VisitAll(edges, limit, visiting + {key}, visited, edges[key]).value.depth);
    }
  }

  lemma {:induction false} CountsMore(edges: Edges, before: set<Ref>, key: Ref, depth: nat)
    requires key in edges && key !in before && Counts(edges, before, edges[key], depth)
    ensures CountsOne(edges, before, key, 1 + depth)
  {
    var path :| First(edges, before, edges[key], path) && |path| == depth;
    assert ([key] + path)[1..] == path && Heads(edges, before, key, [key] + path);
  }

  lemma {:induction false} VisitAllCounts(edges: Edges, limit: int, visiting: set<Ref>, visited: set<Ref>, keys: seq<Ref>)
    requires Closed(edges) && (forall k :: k in keys ==> k in edges) && Finished(edges, visited)
    requires VisitAll(edges, limit, visiting, visited, keys).Ok?
    ensures Counts(edges, visited, keys, VisitAll(edges, limit, visiting, visited, keys).value.depth)
    decreases |edges.Keys - visiting|, 1 + |keys|
  {
    if keys == [] {
      assert First(edges, visited, keys, []);
    } else {
      var v := Visit(edges, limit, visiting, visited, keys[0]).value;
      VisitCounts(edges, limit, visiting, visited, keys[0]);
      VisitMarks(edges, limit, visiting, visited, keys[0]);
      VisitAllCounts(edges, limit, visiting, v.marked, keys[1..]);
      CountsCons(edges, visited, keys, v.depth, VisitAll(edges, limit, visiting, v.marked, keys[1..]).value.depth);
    }
  }

  lemma {:induction false} CountsCons(edges: Edges, before: set<Ref>, keys: seq<Ref>, one: nat, rest: nat)
    requires keys != [] && CountsOne(edges, before, keys[0], one) && Counts(edges, before + Reach(edges, [keys[0]]), keys[1..], rest)
    ensures Counts(edges, before, keys, Max(one, rest))
  {
    forall path ensures First(edges, before, keys, path) <==>
      path == [] || Heads(edges, before, keys[0], path) || First(edges, before + Reach(edges, [keys[0]]), keys[1..], path)
    {
      FirstCons(edges, before, keys, path);
    }
    if one > rest {
      var path :| Heads(edges, before, keys[0], path) && |path| == one;
    } else {
      var path :| First(edges, before + Reach(edges, [keys[0]]), keys[1..], path) && |path| == rest;
    }
  }

  // ---------------------------------------------------------------- main results

  lemma {:induction false} CountedIsLongestFirst(edges: Edges, keys: seq<Ref>)
    requires Listed(edges, keys) && !HasCycle(edges)
    ensures exists path :: FirstPath(edges, keys, path) && |path| == CountedDepth(edges, keys)
    ensures forall path :: FirstPath(edges, keys, path) ==> |path| <= CountedDepth(edges, keys)
  {
    CycleErrorIffCycle(edges, keys, |edges.Keys|);
    NothingVisitedYet(edges);
    VisitAllCounts(edges, |edges.Keys|, {}, {}, keys);
    forall path ensures FirstPath(edges, keys, path) <==> First(edges, {}, keys, path) { FirstPathIff(edges, keys, path); }
    var path :| First(edges, {}, keys, path) && |path| == CountedDepth(edges, keys);
    assert FirstPath(edges, keys, path);
  }

  /** A graph without cycles is accepted exactly when no first path is longer than the limit. */
  lemma {:induction false} AcceptedIffFirstPathsFit(edges: Edges, keys: seq<Ref>, limit: nat)
    requires Listed(edges, keys) && !HasCycle(edges)
    ensures Search(edges, keys, limit).Ok? <==> forall path :: FirstPath(edges, keys, path) ==> |path| <= limit
  {
    CountedIsLongestFirst(edges, keys);
    AcceptedIffCountedDepthFits(edges, keys, limit);
    var longest :| FirstPath(edges, keys, longest) && |longest| == CountedDepth(edges, keys);
  }

  /** The limit bounds every chain, whatever limit is chosen, exactly when some longest chain is a first path. */
  lemma {:induction false} LimitEnforcedIff(edges: Edges, keys: seq<Ref>)
    requires Listed(edges, keys) && !HasCycle(edges)
    ensures (forall limit: nat :: Search(edges, keys, limit).Ok? ==> ChainsFit(edges, limit))
            <==> exists path :: IsChain(edges, path) && FirstPath(edges, keys, path) && ChainsFit(edges, |path|)
  {
    CountedIsLongestFirst(edges, keys);
    forall path | FirstPath(edges, keys, path) ensures IsChain(edges, path) { FirstPathIsChain(edges, keys, path); }
    var longest :| FirstPath(edges, keys, longest) && |longest| == CountedDepth(edges, keys);
    AcceptedIffFirstPathsFit(edges, keys, |longest|);
    if path :| FirstPath(edges, keys, path) && ChainsFit(edges, |path|) {
      forall limit: nat | Search(edges, keys, limit).Ok? ensures ChainsFit(edges, limit) {
        AcceptedIffFirstPathsFit(edges, keys, limit);
        assert |path| <= limit;
      }
    }
  }
}
