/** The depth-first search that looks for cycles among the active items (`_validate_acyclic`). The
    functions thread the two sets that the source's nested function mutates; the class mutates them. */
module Acyclic {
  import opened Core

  /** Dependencies of each active item, among the active items only. */
  type Edges = map<Ref, seq<Ref>>

  predicate Closed(edges: Edges) {
    forall k, d :: k in edges && d in edges[k] ==> d in edges
  }

  datatype Visited = Visited(marked: set<Ref>, depth: nat)

  /** Visits one item: its depth is 0 when it was visited before. */
  function Visit(edges: Edges, limit: int, visiting: set<Ref>, visited: set<Ref>, key: Ref): Result<Visited, GraphError>
    requires Closed(edges) && key in edges
    decreases |edges.Keys - visiting|, 0
  {
    if key in visiting then Err(Cycle)
    else if key in visited then Ok(Visited(visited, 0))
    else
      assert edges.Keys - (visiting + {key}) < edges.Keys - visiting by {
        assert key in edges.Keys - visiting && key !in edges.Keys - (visiting + {key});
      }
      SmallerSet(edges.Keys - (visiting + {key}), edges.Keys - visiting);
      match VisitAll(edges, limit, visiting + {key}, visited, edges[key])
      case Err(e) => Err(e)
      case Ok(v) => if 1 + v.depth > limit then Err(TooDeep) else Ok(Visited(v.marked + {key}, 1 + v.depth))
  }

  /** Visits several items in order; the depth is the greatest of theirs. */
  function VisitAll(edges: Edges, limit: int, visiting: set<Ref>, visited: set<Ref>, keys: seq<Ref>): Result<Visited, GraphError>
    requires Closed(edges) && forall k :: k in keys ==> k in edges
    decreases |edges.Keys - visiting|, 1 + |keys|
  {
    if keys == [] then Ok(Visited(visited, 0))
    else
      match Visit(edges, limit, visiting, visited, keys[0])
      case Err(e) => Err(e)
      case Ok(v) =>
        match VisitAll(edges, limit, visiting, v.marked, keys[1..])
        case Err(e) => Err(e)
        case Ok(rest) => Ok(Visited(rest.marked, Max(v.depth, rest.depth)))
  }

  lemma {:induction false} SmallerSet<T>(a: set<T>, b: set<T>)
    requires a < b
    ensures |a| < |b|
  {
    var x :| x in b && x !in a;
    SubsetSize(a, b - {x});
  }

  lemma {:induction false} SubsetSize<T>(a: set<T>, b: set<T>)
    requires a <= b
    ensures |a| <= |b|
    decreases |a|
  {
    if a != {} {
      var x :| x in a;
      SubsetSize(a - {x}, b - {x});
    }
  }

  /** The check on a whole graph: every active item is visited, in listed order. */
  function Search(edges: Edges, keys: seq<Ref>, limit: int): Result<Visited, GraphError>
    requires Closed(edges) && forall k :: k in keys ==> k in edges
  {
    VisitAll(edges, limit, {}, {}, keys)
  }

  // ---------------------------------------------------------------- what the search is about

  /** A chain of items, each depending on the next. */
  predicate IsChain(edges: Edges, path: seq<Ref>) {
    && (forall i :: 0 <= i < |path| ==> path[i] in edges)
    && forall i {:trigger path[i]} :: 0 < i < |path| ==> path[i] in edges[path[i - 1]]
  }

  ghost predicate HasCycle(edges: Edges) {
    exists path :: IsChain(edges, path) && |path| > 1 && path[0] == path[|path| - 1]
  }

  /** No chain is longer than `limit`. */
  ghost predicate ChainsFit(edges: Edges, limit: int) {
    forall path :: IsChain(edges, path) ==> |path| <= limit
  }

  /** An order that lists every item after all it depends on. */
  ghost predicate Topological(edges: Edges, order: seq<Ref>) {
    forall i :: 0 <= i < |order| ==> order[i] in edges && forall d :: d in edges[order[i]] ==> d in order[..i]
  }

  ghost predicate Finished(edges: Edges, visited: set<Ref>) {
    exists order :: Topological(edges, order) && Elements(order) == visited
  }

  lemma {:induction false} FinishOne(edges: Edges, visited: set<Ref>, key: Ref)
    requires Finished(edges, visited) && key in edges && forall d :: d in edges[key] ==> d in visited
    ensures Finished(edges, visited + {key})
  {
    var order :| Topological(edges, order) && Elements(order) == visited;
    var longer := order + [key];
    forall i | 0 <= i < |longer| ensures longer[i] in edges && forall d :: d in edges[longer[i]] ==> d in longer[..i] {
      if i < |order| { assert longer[i] == order[i] && longer[..i] == order[..i]; } else { assert longer[..i] == order; }
    }
    assert Elements(longer) == visited + {key};
    assert Topological(edges, longer);
  }

  /** Where an item stands in an order. */
  ghost function Position(order: seq<Ref>, key: Ref): (i: nat)
    requires key in order
    ensures i < |order| && order[i] == key && key !in order[..i]
  {
    if order[0] == key then 0 else 1 + Position(order[1..], key)
  }

  lemma {:induction false} ChainDescends(edges: Edges, order: seq<Ref>, path: seq<Ref>)
    requires Topological(edges, order) && IsChain(edges, path) && |path| > 0 && path[0] in order
    ensures path[|path| - 1] in order
    ensures Position(order, path[|path| - 1]) + |path| - 1 <= Position(order, path[0])
    decreases |path|
  {
    if |path| > 1 {
      var p := Position(order, path[0]);
      assert path[1] in edges[path[0]];
      assert path[1] in edges[order[p]];
      assert path[1] in order[..p];
      var q :| 0 <= q < p && order[q] == path[1];
      assert IsChain(edges, path[1..]) by {
        forall i | 0 < i < |path[1..]| ensures path[1..][i] in edges[path[1..][i - 1]] {
          assert path[1..][i] == path[i + 1] && path[1..][i - 1] == path[i];
        }
      }
      ChainDescends(edges, order, path[1..]);
    }
  }

  /** An order exists only if nothing depends on itself. */
  lemma {:induction false} OrderedHasNoCycle(edges: Edges, order: seq<Ref>)
    requires Topological(edges, order) && forall k :: k in edges ==> k in order
    ensures !HasCycle(edges)
  {
    forall path | IsChain(edges, path) && |path| > 1 ensures path[0] != path[|path| - 1] {
      ChainDescends(edges, order, path);
    }
  }

  // ---------------------------------------------------------------- accepted

  lemma {:induction false} VisitFinishes(edges: Edges, limit: int, visiting: set<Ref>, visited: set<Ref>, key: Ref)
    requires Closed(edges) && key in edges && Finished(edges, visited)
    requires Visit(edges, limit, visiting, visited, key).Ok?
    ensures var v := Visit(edges, limit, visiting, visited, key).value;
      Finished(edges, v.marked) && visited <= v.marked && key in v.marked && v.marked <= visited + edges.Keys && v.depth <= |v.marked| - |visited|
    decreases |edges.Keys - visiting|, 0
  {
    if key !in visited {
      SmallerSet(edges.Keys - (visiting + {key}), edges.Keys - visiting);
      VisitAllFinishes(edges, limit, visiting + {key}, visited, edges[key]);
      var v := VisitAll(edges, limit, visiting + {key}, visited, edges[key]).value;
      KeyUntouched(edges, limit, visiting + {key}, visited, edges[key], key);
      FinishOne(edges, v.marked, key);
    }
  }

  lemma {:induction false} VisitAllFinishes(edges: Edges, limit: int, visiting: set<Ref>, visited: set<Ref>, keys: seq<Ref>)
    requires Closed(edges) && (forall k :: k in keys ==> k in edges) && Finished(edges, visited)
    requires VisitAll(edges, limit, visiting, visited, keys).Ok?
    ensures var v := VisitAll(edges, limit, visiting, visited, keys).value;
      Finished(edges, v.marked) && visited <= v.marked && (forall k :: k in keys ==> k in v.marked)
      && v.marked <= visited + edges.Keys && v.depth <= |v.marked| - |visited|
    decreases |edges.Keys - visiting|, 1 + |keys|
  {
    if keys != [] {
      VisitFinishes(edges, limit, visiting, visited, keys[0]);
      var v := Visit(edges, limit, visiting, visited, keys[0]).value;
      VisitAllFinishes(edges, limit, visiting, v.marked, keys[1..]);
    }
  }

  /** An item being visited is not marked visited before its own visit ends. */
  lemma {:induction false} KeyUntouched(edges: Edges, limit: int, visiting: set<Ref>, visited: set<Ref>, keys: seq<Ref>, key: Ref)
    requires Closed(edges) && (forall k :: k in keys ==> k in edges) && key in visiting && key !in visited
    requires VisitAll(edges, limit, visiting, visited, keys).Ok?
    ensures key !in VisitAll(edges, limit, visiting, visited, keys).value.marked
    decreases |edges.Keys - visiting|, 1 + |keys|
  {
    if keys != [] {
      var k := keys[0];
      if k !in visited {
        SmallerSet(edges.Keys - (visiting + {k}), edges.Keys - visiting);
        KeyUntouched(edges, limit, visiting + {k}, visited, edges[k], key);
      }
      KeyUntouched(edges, limit, visiting, Visit(edges, limit, visiting, visited, k).value.marked, keys[1..], key);
    }
  }

  // ---------------------------------------------------------------- refused

  lemma {:induction false} RepeatIsCycle(edges: Edges, stack: seq<Ref>, key: Ref)
    requires IsChain(edges, stack + [key]) && key in stack
    ensures HasCycle(edges)
  {
    var longer := stack + [key];
    var i :| 0 <= i < |stack| && stack[i] == key;
    var loop := longer[i..];
    forall j | 0 < j < |loop| ensures loop[j] in edges[loop[j - 1]] {
      assert loop[j] == longer[i + j] && loop[j - 1] == longer[i + j - 1];
    }
    assert IsChain(edges, loop) && loop[0] == loop[|loop| - 1];
  }

  /** A cycle error is raised on a real cycle: `stack` lists the items being visited, outermost first. */
  lemma {:induction false} CycleIsReal(edges: Edges, limit: int, stack: seq<Ref>, visited: set<Ref>, key: Ref)
    requires Closed(edges) && key in edges && IsChain(edges, stack + [key])
    requires Visit(edges, limit, Elements(stack), visited, key) == Err(Cycle)
    ensures HasCycle(edges)
    decreases |edges.Keys - Elements(stack)|, 0
  {
    var visiting := Elements(stack);
    var longer := stack + [key];
    if key in visiting {
      RepeatIsCycle(edges, stack, key);
    } else if key !in visited {
      assert Elements(longer) == visiting + {key};
      SmallerSet(edges.Keys - (visiting + {key}), edges.Keys - visiting);
      assert longer[|longer| - 1] == key;
      CycleBelow(edges, limit, longer, visited, edges[key]);
    }
  }

  lemma {:induction false} CycleBelow(edges: Edges, limit: int, stack: seq<Ref>, visited: set<Ref>, keys: seq<Ref>)
    requires Closed(edges) && IsChain(edges, stack) && forall k :: k in keys ==> k in edges
    requires |stack| > 0 ==> forall k :: k in keys ==> k in edges[stack[|stack| - 1]]
    requires VisitAll(edges, limit, Elements(stack), visited, keys) == Err(Cycle)
    ensures HasCycle(edges)
    decreases |edges.Keys - Elements(stack)|, 1 + |keys|
  {
    var r := Visit(edges, limit, Elements(stack), visited, keys[0]);
    assert keys[0] in keys && forall k :: k in keys[1..] ==> k in keys;
    if r.Err? {
      var longer := stack + [keys[0]];
      forall i | 0 < i < |longer| ensures longer[i] in edges[longer[i - 1]] {
        if i < |stack| { assert longer[i] == stack[i] && longer[i - 1] == stack[i - 1]; }
      }
      CycleIsReal(edges, limit, stack, visited, keys[0]);
    } else {
      CycleBelow(edges, limit, stack, r.value.marked, keys[1..]);
    }
  }

  /** Some chain from this item has this many links more than none. */
  ghost predicate ChainFrom(edges: Edges, key: Ref, length: nat) {
    exists path :: IsChain(edges, path) && |path| == length && (length > 0 ==> path[0] == key)
  }

  lemma {:induction false} ConsChain(edges: Edges, key: Ref, path: seq<Ref>)
    requires key in edges && IsChain(edges, path) && (path != [] ==> path[0] in edges[key])
    ensures IsChain(edges, [key] + path)
  {
    var longer := [key] + path;
    forall i | 0 < i < |longer| ensures longer[i] in edges[longer[i - 1]] {
      if i > 1 { assert longer[i] == path[i - 1] && longer[i - 1] == path[i - 2]; }
    }
  }

  /** A chain leads from one item to another. */
  ghost predicate Linked(edges: Edges, a: Ref, b: Ref) {
    exists path :: IsChain(edges, path) && path != [] && path[0] == a && path[|path| - 1] == b
  }

  lemma {:induction false} LinkedSelf(edges: Edges, a: Ref)
    requires a in edges
    ensures Linked(edges, a, a)
  {
    assert IsChain(edges, [a]);
  }

  lemma {:induction false} LinkedFurther(edges: Edges, a: Ref, b: Ref, c: Ref)
    requires a in edges && b in edges[a] && Linked(edges, b, c)
    ensures Linked(edges, a, c)
  {
    var path :| IsChain(edges, path) && path != [] && path[0] == b && path[|path| - 1] == c;
    ConsChain(edges, a, path);
    assert ([a] + path)[0] == a && ([a] + path)[|path|] == c;
  }

  lemma {:induction false} PrependChain(edges: Edges, key: Ref, next: Ref, length: nat)
    requires key in edges && next in edges[key] && ChainFrom(edges, next, length)
    ensures ChainFrom(edges, key, length + 1)
  {
    var path :| IsChain(edges, path) && |path| == length && (length > 0 ==> path[0] == next);
    ConsChain(edges, key, path);
    assert ([key] + path)[0] == key;
  }

  /** The depth of an item is the length of a real chain from it, and an item is refused as too deep only
      because of a real chain. */
  lemma {:induction false} DepthIsReal(edges: Edges, limit: int, visiting: set<Ref>, visited: set<Ref>, key: Ref)
    requires Closed(edges) && key in edges
    ensures match Visit(edges, limit, visiting, visited, key)
            case Ok(v) => ChainFrom(edges, key, v.depth)
            case Err(e) => e == Cycle || (e == TooDeep && !ChainsFit(edges, limit))
    decreases |edges.Keys - visiting|, 0
  {
    assert IsChain(edges, []);
    if key !in visiting && key !in visited {
      SmallerSet(edges.Keys - (visiting + {key}), edges.Keys - visiting);
      DepthsAreReal(edges, limit, visiting + {key}, visited, edges[key]);
      var r := VisitAll(edges, limit, visiting + {key}, visited, edges[key]);
      if r.Ok? {
        if r.value.depth == 0 {
          assert IsChain(edges, [key]);
        } else {
          var next :| next in edges[key] && ChainFrom(edges, next, r.value.depth);
          PrependChain(edges, key, next, r.value.depth);
        }
        assert ChainFrom(edges, key, 1 + r.value.depth);
      }
    }
  }

  lemma {:induction false} DepthsAreReal(edges: Edges, limit: int, visiting: set<Ref>, visited: set<Ref>, keys: seq<Ref>)
    requires Closed(edges) && forall k :: k in keys ==> k in edges
    ensures match VisitAll(edges, limit, visiting, visited, keys)
            case Ok(v) => v.depth == 0 || exists k :: k in keys && ChainFrom(edges, k, v.depth)
            case Err(e) => e == Cycle || (e == TooDeep && !ChainsFit(edges, limit))
    decreases |edges.Keys - visiting|, 1 + |keys|
  {
    if keys != [] {
      DepthIsReal(edges, limit, visiting, visited, keys[0]);
      var r := Visit(edges, limit, visiting, visited, keys[0]);
      if r.Ok? { DepthsAreReal(edges, limit, visiting, r.value.marked, keys[1..]); }
    }
  }

  // ---------------------------------------------------------------- main results

  /** Every key of the edge map is listed, and nothing else. */
  ghost predicate Listed(edges: Edges, keys: seq<Ref>) {
    Closed(edges) && forall k :: k in keys <==> k in edges
  }

  lemma {:induction false} NothingVisitedYet(edges: Edges)
    ensures Finished(edges, {})
  {
    assert Topological(edges, []) && Elements([]) == {};
  }

  lemma {:induction false} AcceptedIsOrdered(edges: Edges, keys: seq<Ref>, limit: int) returns (order: seq<Ref>)
    requires Listed(edges, keys) && Search(edges, keys, limit).Ok?
    ensures Topological(edges, order) && (forall k :: k in edges <==> k in order)
  {
    NothingVisitedYet(edges);
    VisitAllFinishes(edges, limit, {}, {}, keys);
    var all := Search(edges, keys, limit).value.marked;
    order :| Topological(edges, order) && Elements(order) == all;
  }

  /** An accepted graph has no cycle; a cycle error is raised only on a cycle; and a graph is refused as too
      deep only when one of its chains really exceeds the limit. */
  lemma {:induction false} SearchIsSound(edges: Edges, keys: seq<Ref>, limit: int)
    requires Listed(edges, keys)
    ensures Search(edges, keys, limit).Ok? ==> !HasCycle(edges)
    ensures Search(edges, keys, limit) == Err(Cycle) ==> HasCycle(edges)
    ensures !HasCycle(edges) && ChainsFit(edges, limit) ==> Search(edges, keys, limit).Ok?
  {
    var r := Search(edges, keys, limit);
    DepthsAreReal(edges, limit, {}, {}, keys);
    if r.Ok? {
      var order := AcceptedIsOrdered(edges, keys, limit);
      OrderedHasNoCycle(edges, order);
    } else if r == Err(Cycle) {
      assert Elements([]) == {};
      CycleBelow(edges, limit, [], {}, keys);
    }
  }

  lemma {:induction false} NeverTooDeep(edges: Edges, limit: int, visiting: set<Ref>, visited: set<Ref>, keys: seq<Ref>)
    requires Closed(edges) && (forall k :: k in keys ==> k in edges) && Finished(edges, visited)
    requires visited <= edges.Keys && limit >= |edges.Keys|
    ensures VisitAll(edges, limit, visiting, visited, keys) != Err(TooDeep)
    decreases |edges.Keys - visiting|, 1 + |keys|
  {
    if keys != [] {
      var r := Visit(edges, limit, visiting, visited, keys[0]);
      OneNeverTooDeep(edges, limit, visiting, visited, keys[0]);
      if r.Ok? {
        VisitFinishes(edges, limit, visiting, visited, keys[0]);
        NeverTooDeep(edges, limit, visiting, r.value.marked, keys[1..]);
      }
    }
  }

  lemma {:induction false} OneNeverTooDeep(edges: Edges, limit: int, visiting: set<Ref>, visited: set<Ref>, key: Ref)
    requires Closed(edges) && key in edges && Finished(edges, visited)
    requires visited <= edges.Keys && limit >= |edges.Keys|
    ensures Visit(edges, limit, visiting, visited, key) != Err(TooDeep)
    decreases |edges.Keys - visiting|, 0
  {
    if key !in visiting && key !in visited {
      SmallerSet(edges.Keys - (visiting + {key}), edges.Keys - visiting);
      NeverTooDeep(edges, limit, visiting + {key}, visited, edges[key]);
      var below := VisitAll(edges, limit, visiting + {key}, visited, edges[key]);
      if below.Ok? {
        VisitAllFinishes(edges, limit, visiting + {key}, visited, edges[key]);
        KeyUntouched(edges, limit, visiting + {key}, visited, edges[key], key);
        SubsetSize(below.value.marked + {key}, edges.Keys);
      }
    }
  }

  /** Depth limit aside, the cycle error is raised exactly when there is a cycle. */
  lemma {:induction false} CycleErrorIffCycle(edges: Edges, keys: seq<Ref>, limit: int)
    requires Listed(edges, keys) && limit >= |edges.Keys|
    ensures Search(edges, keys, limit) == Err(Cycle) <==> HasCycle(edges)
    ensures Search(edges, keys, limit).Ok? <==> !HasCycle(edges)
  {
    SearchIsSound(edges, keys, limit);
    NothingVisitedYet(edges);
    NeverTooDeep(edges, limit, {}, {}, keys);
    DepthsAreReal(edges, limit, {}, {}, keys);
  }

  // ---------------------------------------------------------------- what the depth limit enforces

  /** Under another limit the search accepts with the same answer, or refuses as too deep: it compares the
      limit with the depth it has counted. */
  lemma {:induction false} LimitComparesCountedDepth(edges: Edges, most: int, limit: int, visiting: set<Ref>, visited: set<Ref>, keys: seq<Ref>)
    requires Closed(edges) && (forall k :: k in keys ==> k in edges) && limit <= most
    requires VisitAll(edges, most, visiting, visited, keys).Ok?
    ensures var v := VisitAll(edges, most, visiting, visited, keys);
      VisitAll(edges, limit, visiting, visited, keys) == if v.value.depth <= limit || v.value.depth == 0 then v else Err(TooDeep)
    decreases |edges.Keys - visiting|, 1 + |keys|
  {
    if keys != [] {
      var k := keys[0];
      LimitComparesDepthOfOne(edges, most, limit, visiting, visited, k);
      LimitComparesCountedDepth(edges, most, limit, visiting, Visit(edges, most, visiting, visited, k).value.marked, keys[1..]);
    }
  }

  lemma {:induction false} LimitComparesDepthOfOne(edges: Edges, most: int, limit: int, visiting: set<Ref>, visited: set<Ref>, key: Ref)
    requires Closed(edges) && key in edges && limit <= most
    requires Visit(edges, most, visiting, visited, key).Ok?
    ensures var v := Visit(edges, most, visiting, visited, key);
      Visit(edges, limit, visiting, visited, key) == if v.value.depth <= limit || v.value.depth == 0 then v else Err(TooDeep)
    decreases |edges.Keys - visiting|, 0
  {
    if key !in visited {
      SmallerSet(edges.Keys - (visiting + {key}), edges.Keys - visiting);
      LimitComparesCountedDepth(edges, most, limit, visiting + {key}, visited, edges[key]);
    }
  }

  /** The depth the search counts on a graph without cycles. */
  ghost function CountedDepth(edges: Edges, keys: seq<Ref>): (depth: nat)
    requires Listed(edges, keys) && !HasCycle(edges)
  {
    CycleErrorIffCycle(edges, keys, |edges.Keys|);
    Search(edges, keys, |edges.Keys|).value.depth
  }

  /** Exactly when a graph without cycles is accepted: the counted depth is within the limit. The count is the
      length of some chain, so it is at most the longest one. */
  lemma {:induction false} AcceptedIffCountedDepthFits(edges: Edges, keys: seq<Ref>, limit: int)
    requires Listed(edges, keys) && !HasCycle(edges) && limit >= 0
    ensures Search(edges, keys, limit).Ok? <==> CountedDepth(edges, keys) <= limit
    ensures CountedDepth(edges, keys) <= |edges.Keys|
    ensures exists path :: IsChain(edges, path) && |path| == CountedDepth(edges, keys)
  {
    var most := if limit < |edges.Keys| then |edges.Keys| else limit;
    CycleErrorIffCycle(edges, keys, most);
    CycleErrorIffCycle(edges, keys, |edges.Keys|);
    NothingVisitedYet(edges);
    VisitAllFinishes(edges, |edges.Keys|, {}, {}, keys);
    SubsetSize(Search(edges, keys, |edges.Keys|).value.marked, edges.Keys);
    LimitComparesCountedDepth(edges, most, limit, {}, {}, keys);
    LimitComparesCountedDepth(edges, most, |edges.Keys|, {}, {}, keys);
    DepthsAreReal(edges, |edges.Keys|, {}, {}, keys);
    var none: seq<Ref> := [];
    assert IsChain(edges, none) && |none| == 0;
    if CountedDepth(edges, keys) != 0 {
      var k :| k in keys && ChainFrom(edges, k, CountedDepth(edges, keys));
    }
  }

  /** The family on which the limit has no effect: a list that names every item after its dependencies is
      accepted under limit 1, since each visit finds its dependencies already visited and counts them as 0. */
  lemma {:induction false} DependenciesFirstIsAccepted(edges: Edges, keys: seq<Ref>, limit: int)
    requires Listed(edges, keys) && Topological(edges, keys) && limit >= 1
    ensures Search(edges, keys, limit).Ok?
  {
    VisitedOneByOne(edges, keys, limit, 0);
    assert keys[0..] == keys && Elements(keys[..0]) == {};
  }

  lemma {:induction false} VisitedOneByOne(edges: Edges, keys: seq<Ref>, limit: int, done: nat)
    requires Listed(edges, keys) && Topological(edges, keys) && limit >= 1 && done <= |keys|
    ensures VisitAll(edges, limit, {}, Elements(keys[..done]), keys[done..]).Ok?
    decreases |keys| - done
  {
    if done < |keys| {
      var key, visited := keys[done], Elements(keys[..done]);
      VisitedNext(edges, key, visited, limit);
      assert keys[done..][0] == key && keys[done..][1..] == keys[done + 1..];
      assert keys[..done + 1] == keys[..done] + [key];
      assert Elements(keys[..done + 1]) == visited + {key};
      VisitedOneByOne(edges, keys, limit, done + 1);
    }
  }

  /** A visit that finds all dependencies visited marks only the item. */
  lemma {:induction false} VisitedNext(edges: Edges, key: Ref, visited: set<Ref>, limit: int)
    requires Closed(edges) && key in edges && limit >= 1 && (forall d :: d in edges[key] ==> d in visited)
    ensures Visit(edges, limit, {}, visited, key).Ok? && Visit(edges, limit, {}, visited, key).value.marked == visited + {key}
  {
    if key !in visited { AllVisited(edges, limit, {} + {key}, visited, edges[key]); }
  }

  lemma {:induction false} AllVisited(edges: Edges, limit: int, visiting: set<Ref>, visited: set<Ref>, keys: seq<Ref>)
    requires Closed(edges) && forall k :: k in keys ==> k in edges && k in visited && k !in visiting
    ensures VisitAll(edges, limit, visiting, visited, keys) == Ok(Visited(visited, 0))
    decreases |keys|
  {
    if keys != [] {
      assert keys[0] in keys;
      AllVisited(edges, limit, visiting, visited, keys[1..]);
    }
  }

  /** A concrete one: `b` depends on `a`, the limit is 1, and the chain of two is accepted. */
  lemma {:induction false} DeepChainAccepted(a: Ref, b: Ref)
    requires a != b
    ensures var edges := map[a := [], b := [a]];
      Listed(edges, [a, b]) && Search(edges, [a, b], 1).Ok? && !ChainsFit(edges, 1)
  {
    var edges := map[a := [], b := [a]];
    assert Topological(edges, [a, b]) by { assert [a, b][..1] == [a]; }
    DependenciesFirstIsAccepted(edges, [a, b], 1);
    assert IsChain(edges, [b, a]);
  }

  /** The same two items in the other order are refused, so acceptance can depend on the order of the list. */
  lemma {:induction false} ListOrderMatters(a: Ref, b: Ref)
    requires a != b
    ensures var edges := map[a := [], b := [a]];
      Listed(edges, [b, a]) && Search(edges, [b, a], 1) == Err(TooDeep) && Search(edges, [a, b], 1).Ok?
  {
    var edges := map[a := [], b := [a]];
    DeepChainAccepted(a, b);
    var none: set<Ref> := {};
    assert edges[a] == [] && edges[b] == [a] && [a][0] == a && [a][1..] == [] && [b, a][0] == b;
    assert none + {a} == {a};
    assert Visit(edges, 1, none + {b}, none, a) == Ok(Visited(none + {a}, 1));
    assert VisitAll(edges, 1, none + {b}, none, [a]) == Ok(Visited(none + {a}, 1));
    assert Visit(edges, 1, none, none, b) == Err(TooDeep);
  }

  // ---------------------------------------------------------------- the mutable search

  /** The two sets that the source's nested function `visit` adds to and removes from. */
  class CycleSearch {
    const edges: Edges
    const limit: int
    var visiting: set<Ref>
    var visited: set<Ref>

    constructor (edges: Edges, limit: int)
      ensures this.edges == edges && this.limit == limit && visiting == {} && visited == {}
    {
      this.edges, this.limit, visiting, visited := edges, limit, {}, {};
    }

    /** Returns the depth or the raised error, and leaves both sets as the specification says. */
    method VisitKey(key: Ref) returns (r: Result<nat, GraphError>)
      requires Closed(edges) && key in edges
      modifies this
      ensures match Visit(edges, limit, old(visiting), old(visited), key)
              case Ok(v) => r == Ok(v.depth) && visited == v.marked && visiting == old(visiting)
              case Err(e) => r == Err(e)
      decreases |edges.Keys - visiting|, 0
    {
      if key in visiting { return Err(Cycle); }
      if key in visited { return Ok(0); }
      SmallerSet(edges.Keys - (visiting + {key}), edges.Keys - visiting);
      ghost var outer := visiting;
      visiting := visiting + {key};
      var deepest := VisitKeys(edges[key]);
      if deepest.Err? { return deepest; }
      var depth := 1 + deepest.value;
      visiting := visiting - {key};
      assert visiting == outer;
      visited := visited + {key};
      if depth > limit { return Err(TooDeep); }
      return Ok(depth);
    }

    /** The generator under `max(..., default=0)`, and the outer loop over all keys. */
    method VisitKeys(keys: seq<Ref>) returns (r: Result<nat, GraphError>)
      requires Closed(edges) && forall k :: k in keys ==> k in edges
      modifies this
      ensures match VisitAll(edges, limit, old(visiting), old(visited), keys)
              case Ok(v) => r == Ok(v.depth) && visited == v.marked && visiting == old(visiting)
              case Err(e) => r == Err(e)
      decreases |edges.Keys - visiting|, 1 + |keys|
    {
      ghost var whole := VisitAll(edges, limit, visiting, visited, keys);
      var i, deepest: nat := 0, 0;
      while i < |keys|
        invariant 0 <= i <= |keys| && visiting == old(visiting)
        invariant match VisitAll(edges, limit, visiting, visited, keys[i..])
                  case Ok(v) => whole == Ok(Visited(v.marked, Max(deepest, v.depth)))
                  case Err(e) => whole == Err(e)
      {
        assert keys[i..][0] == keys[i] && keys[i..][1..] == keys[i + 1..];
        var depth := VisitKey(keys[i]);
        if depth.Err? { return depth; }
        deepest := Max(deepest, depth.value);
        i := i + 1;
      }
      return Ok(deepest);
    }
  }
}
