/** The depth-first search does not look at names: on a renamed graph it gives the renamed answer. */
module AcyclicRenaming {
  import opened Core
  import opened Acyclic

  ghost function MapAll(f: Ref -> Ref, refs: seq<Ref>): (r: seq<Ref>) {
    seq(|refs|, i requires 0 <= i < |refs| => f(refs[i]))
  }

  ghost function Image(f: Ref -> Ref, s: set<Ref>): set<Ref> {
    set r | r in s :: f(r)
  }

  ghost predicate ApartUnder(f: Ref -> Ref, a: Ref, b: Ref) {
    f(a) == f(b) ==> a == b
  }

  ghost predicate Injective(f: Ref -> Ref, s: set<Ref>) {
    forall a, b {:trigger ApartUnder(f, a, b)} :: a in s && b in s ==> ApartUnder(f, a, b)
  }

  /** `edges'` is `edges` with every reference replaced by its image. */
  ghost predicate RenamedEdges(f: Ref -> Ref, edges: Edges, edges': Edges) {
    && Closed(edges) && Closed(edges')
    && Injective(f, edges.Keys)
    && (forall k :: k in edges ==> f(k) in edges' && edges'[f(k)] == MapAll(f, edges[k]))
  }

  lemma {:induction false} InImage(f: Ref -> Ref, all: set<Ref>, s: set<Ref>, key: Ref)
    requires Injective(f, all) && s <= all && key in all
    ensures f(key) in Image(f, s) <==> key in s
  {
    if f(key) in Image(f, s) {
      var r :| r in s && f(r) == f(key);
      assert ApartUnder(f, r, key);
    }
  }

  lemma {:induction false} VisitRenamed(f: Ref -> Ref, edges: Edges, edges': Edges, limit: int, visiting: set<Ref>, visited: set<Ref>, key: Ref)
    requires RenamedEdges(f, edges, edges') && key in edges && visiting <= edges.Keys && visited <= edges.Keys
    ensures match Visit(edges, limit, visiting, visited, key)
            case Ok(v) => v.marked <= edges.Keys
                          && Visit(edges', limit, Image(f, visiting), Image(f, visited), f(key)) == Ok(Visited(Image(f, v.marked), v.depth))
            case Err(e) => Visit(edges', limit, Image(f, visiting), Image(f, visited), f(key)) == Err(e)
    decreases |edges.Keys - visiting|, 0, 1
  {
    KeyInImage(f, edges, edges', visiting, key);
    KeyInImage(f, edges, edges', visited, key);
    if key !in visiting && key !in visited { VisitDeeper(f, edges, edges', limit, visiting, visited, key); }
  }

  lemma {:induction false} KeyInImage(f: Ref -> Ref, edges: Edges, edges': Edges, s: set<Ref>, key: Ref)
    requires RenamedEdges(f, edges, edges') && s <= edges.Keys && key in edges
    ensures f(key) in Image(f, s) <==> key in s
    ensures f(key) in edges' && edges'[f(key)] == MapAll(f, edges[key])
  {
    InImage(f, edges.Keys, s, key);
  }

  lemma {:induction false} FewerLeft(edges: Edges, visiting: set<Ref>, key: Ref)
    requires key in edges && key !in visiting
    ensures |edges.Keys - (visiting + {key})| < |edges.Keys - visiting|
  {
    assert key in edges.Keys - visiting;
    SmallerSet(edges.Keys - (visiting + {key}), edges.Keys - visiting);
  }

  /** The branch of `Visit` that goes deeper. */
  lemma {:induction false} VisitUnfolds(edges: Edges, limit: int, visiting: set<Ref>, visited: set<Ref>, key: Ref)
    requires Closed(edges) && key in edges && key !in visiting && key !in visited
    ensures Visit(edges, limit, visiting, visited, key) ==
      match VisitAll(edges, limit, visiting + {key}, visited, edges[key])
      case Err(e) => Err(e)
      case Ok(v) => if 1 + v.depth > limit then Err(TooDeep) else Ok(Visited(v.marked + {key}, 1 + v.depth))
  {
  }

  lemma {:induction false} VisitDeeper(f: Ref -> Ref, edges: Edges, edges': Edges, limit: int, visiting: set<Ref>, visited: set<Ref>, key: Ref)
    requires RenamedEdges(f, edges, edges') && key in edges && visiting <= edges.Keys && visited <= edges.Keys
    requires key !in visiting && key !in visited && f(key) !in Image(f, visiting) && f(key) !in Image(f, visited)
    requires f(key) in edges' && edges'[f(key)] == MapAll(f, edges[key])
    ensures match Visit(edges, limit, visiting, visited, key)
            case Ok(v) => v.marked <= edges.Keys
                          && Visit(edges', limit, Image(f, visiting), Image(f, visited), f(key)) == Ok(Visited(Image(f, v.marked), v.depth))
            case Err(e) => Visit(edges', limit, Image(f, visiting), Image(f, visited), f(key)) == Err(e)
    decreases |edges.Keys - visiting|, 0, 0
  {
    FewerLeft(edges, visiting, key);
    VisitAllRenamed(f, edges, edges', limit, visiting + {key}, visited, edges[key]);
    VisitUnfolds(edges, limit, visiting, visited, key);
    VisitUnfolds(edges', limit, Image(f, visiting), Image(f, visited), f(key));
    ImagePlus(f, visiting, key);
    var r := VisitAll(edges, limit, visiting + {key}, visited, edges[key]);
    if r.Ok? { ImagePlus(f, r.value.marked, key); }
  }

  lemma {:induction false} ImagePlus(f: Ref -> Ref, s: set<Ref>, key: Ref)
    ensures Image(f, s + {key}) == Image(f, s) + {f(key)}
  {
  }

  lemma {:induction false} VisitAllRenamed(f: Ref -> Ref, edges: Edges, edges': Edges, limit: int, visiting: set<Ref>, visited: set<Ref>, keys: seq<Ref>)
    requires RenamedEdges(f, edges, edges') && (forall k :: k in keys ==> k in edges) && visiting <= edges.Keys && visited <= edges.Keys
    ensures forall k :: k in MapAll(f, keys) ==> k in edges'
    ensures match VisitAll(edges, limit, visiting, visited, keys)
            case Ok(v) => v.marked <= edges.Keys
                          && VisitAll(edges', limit, Image(f, visiting), Image(f, visited), MapAll(f, keys)) == Ok(Visited(Image(f, v.marked), v.depth))
            case Err(e) => VisitAll(edges', limit, Image(f, visiting), Image(f, visited), MapAll(f, keys)) == Err(e)
    decreases |edges.Keys - visiting|, 1 + |keys|, 0
  {
    MappedKeys(f, edges, edges', keys);
    if keys != [] {
      assert MapAll(f, keys)[1..] == MapAll(f, keys[1..]) && MapAll(f, keys)[0] == f(keys[0]);
      VisitRenamed(f, edges, edges', limit, visiting, visited, keys[0]);
      var v := Visit(edges, limit, visiting, visited, keys[0]);
      if v.Ok? { VisitAllRenamed(f, edges, edges', limit, visiting, v.value.marked, keys[1..]); }
    }
  }

  lemma {:induction false} MappedKeys(f: Ref -> Ref, edges: Edges, edges': Edges, keys: seq<Ref>)
    requires RenamedEdges(f, edges, edges') && forall k :: k in keys ==> k in edges
    ensures forall k :: k in MapAll(f, keys) ==> k in edges'
  {
  }

  /** A renamed graph is accepted exactly when the graph is. */
  lemma {:induction false} SearchRenamed(f: Ref -> Ref, edges: Edges, edges': Edges, keys: seq<Ref>, limit: int)
    requires RenamedEdges(f, edges, edges') && forall k :: k in keys ==> k in edges
    ensures forall k :: k in MapAll(f, keys) ==> k in edges'
    ensures Search(edges', MapAll(f, keys), limit).Ok? <==> Search(edges, keys, limit).Ok?
  {
    VisitAllRenamed(f, edges, edges', limit, {}, {}, keys);
    assert Image(f, {}) == {};
  }
}
