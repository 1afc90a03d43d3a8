/** The comparison of path sets canonicalises what is canonical already. For which paths that matters, and that
    it lets one batch select two Tasks whose paths overlap. */
module UnstablePaths {
  import opened Core
  import opened Text
  import opened Order
  import opened Attempts
  import opened Paths
  import opened Resources
  import opened Scheduler

  lemma {:induction false} SingleCanonical(p: string, c: string)
    requires Canonical(p) == Ok(c)
    ensures CanonicalPaths([p]) == Ok([c])
  {
    assert [p][1..] == [];
    assert CanonicalAll([p]) == Ok([c] + []) && [c] + [] == [c];
    assert [c][1..] == [];
    assert Distinct([c]) == [c];
    assert Sort([c][1..], LessEq) == [];
    assert Sort([c], LessEq) == Insert(c, [], LessEq) == [c];
  }

  lemma {:induction false} SingletonSets(p: string, q: string)
    requires Canonical(p).Ok? && Canonical(q).Ok?
    ensures SetsConflict([p], [q]) == Ok(OverlapTwice(p, q))
  {
    SetsConflictExact([p], [q]);
    assert p in [p] && q in [q];
  }

  /** Canonicalising once more can hide a conflict: the set comparison canonicalises paths that are canonical
      already, and so loses the white space at the end of "/a ". */
  lemma {:induction false} UnstablePathsEscape()
    ensures PathsConflict("/a /", "/a /b") == Ok(true)
    ensures SetsConflict(["/a /"], ["/a /b"]) == Ok(false)
  {
    NotAlwaysIdempotent();
    ChildIsCanonical();
    OverlapDepends();
    SingletonSets("/a /", "/a /b");
  }

  lemma {:induction false} ChildIsCanonical()
    ensures Canonical("/a /b") == Ok("/a /b")
  {
    var child, segments := "/a /b", ["a ", "b"];
    assert segments[1..] == ["b"];
    assert Join(segments) == "a " + "/" + "b" && Render(1, segments) == "/" + Join(segments);
    assert child == Render(1, segments);
    assert Plain("a ") && Plain("b");
    ReadBack(1, segments);
    assert Strip(child) == child;
  }

  lemma {:induction false} OverlapDepends()
    ensures Overlap("/a ", "/a /b") && !Overlap("/a", "/a /b")
  {
    var child := "/a /b";
    assert "/a " + "/" == "/a /" && "/a /" == child[..4];
    assert "/a" + "/" == "/a/" && "/a/"[2] != child[2];
  }

  // ---------------------------------------------------------------- exactly which paths

  /** The two comparisons give the same answer. */
  predicate Agree(p: string, q: string) {
    SetsConflict([p], [q]) == PathsConflict(p, q)
  }

  lemma {:induction false} RenderSettles(root: nat, segments: seq<string>)
    requires (root == 1 || root == 2) && AllPlain(segments) && !Ragged(segments)
    ensures Settles(Render(root, segments)) && Canon(Render(root, segments)) == Render(root, segments)
  {
    RenderStable(root, segments);
  }

  /** The comparisons of `p` with a settled rendered path. */
  lemma {:induction false} AgreeOn(p: string, root: nat, again: seq<string>, segments: seq<string>)
    requires Canonical(p).Ok? && root == Root(Strip(p)) && AllPlain(again) && Canon(Canon(p)) == Render(root, again)
    requires AllPlain(segments) && !Ragged(segments)
    ensures var own := Segments(Strip(p));
      Agree(p, Render(root, segments)) <==>
      ((Covers(root, again, root, segments) || Covers(root, segments, root, again))
       <==> (Covers(root, own, root, segments) || Covers(root, segments, root, own)))
  {
    var q := Render(root, segments);
    RenderSettles(root, segments);
    SingletonSets(p, q);
    OverlapIff(root, again, root, segments);
    OverlapIff(root, Segments(Strip(p)), root, segments);
  }

  /** `p` has the segments `init` and `s`, and canonicalising again leaves `again`. */
  ghost predicate Shape(p: string, root: nat, init: seq<string>, s: string, again: seq<string>) {
    && Canonical(p).Ok? && root == Root(Strip(p)) && Segments(Strip(p)) == init + [s] && s != [] && IsSpace(s[|s| - 1])
    && AllPlain(again) && Canon(Canon(p)) == Render(root, again)
  }

  /** Only the white space is lost, or everything below a root of two slashes. */
  lemma {:induction false} DiffersOnItself(p: string, root: nat, init: seq<string>, s: string, again: seq<string>)
    requires Shape(p, root, init, s, again) && !Ragged(again)
    requires (root == 2 && again == []) || (exists s' :: s' != s && again == init + [s'])
    ensures Settles(Render(root, again)) && !Agree(p, Render(root, again))
  {
    RenderSettles(root, again);
    AgreeOn(p, root, again, again);
    LostNothing(root, init, s, again);
  }

  /** The last segment is lost. */
  lemma {:induction false} DiffersBeside(p: string, root: nat, init: seq<string>, s: string, again: seq<string>)
    requires Shape(p, root, init, s, again) && again <= init && (root == 2 ==> again != []) && AllPlain(init + ["b"])
    ensures Settles(Render(root, init + ["b"])) && !Agree(p, Render(root, init + ["b"]))
  {
    RenderSettles(root, init + ["b"]);
    AgreeOn(p, root, again, init + ["b"]);
    LostSegment(root, init, s, again);
  }

  lemma {:induction false} ShapeOf(p: string, init: seq<string>, s: string)
    requires Canonical(p).Ok? && Ragged(Segments(Strip(p))) && Segments(Strip(p)) == init + [s]
    ensures AllPlain(init) && '/' !in StripRight(s) && Shape(p, Root(Strip(p)), init, s, Walk([StripRight(s)], init))
  {
    var own := Segments(Strip(p));
    assert own[|init|] == s && Plain(own[|init|]);
    assert forall i :: 0 <= i < |init| ==> init[i] == own[i];
    LastSegment(init, s);
    CanonicalRendered(Root(Strip(p)), init, s);
  }

  lemma {:induction false} WhatIsLeft(init: seq<string>, s: string)
    requires AllPlain(init + [s]) && AllPlain(init) && s != [] && IsSpace(s[|s| - 1]) && '/' !in StripRight(s)
    ensures var again := Walk([StripRight(s)], init);
      if Plain(StripRight(s)) then !Ragged(again) && exists s' :: s' != s && again == init + [s'] else again <= init
  {
    LastSegment(init, s);
  }

  /** If the canonical form of `p` ends in white space, then the comparisons differ on some settled path: on what
      canonicalising again makes of `p`, or else on a path beside the segment that this loses. */
  lemma {:induction false} RaggedDisagrees(p: string, init: seq<string>, s: string) returns (q: string)
    requires Canonical(p).Ok? && Ragged(Segments(Strip(p))) && Segments(Strip(p)) == init + [s]
    ensures Settles(q) && !Agree(p, q)
  {
    var root := Root(Strip(p));
    ShapeOf(p, init, s);
    WhatIsLeft(init, s);
    var again := Walk([StripRight(s)], init);
    if Plain(StripRight(s)) || (root == 2 && again == []) {
      q := Render(root, again);
      DiffersOnItself(p, root, init, s, again);
    } else {
      q := Render(root, init + ["b"]);
      DiffersBeside(p, root, init, s, again);
    }
  }

  lemma {:induction false} LostNothing(root: nat, init: seq<string>, s: string, again: seq<string>)
    requires (root == 2 && again == []) || (exists s' :: s' != s && again == init + [s'])
    ensures Covers(root, again, root, again) && !Covers(root, again, root, init + [s]) && !Covers(root, init + [s], root, again)
  {
    var own := init + [s];
    assert own[|init|] == s;
  }

  lemma {:induction false} LostSegment(root: nat, init: seq<string>, s: string, again: seq<string>)
    requires again <= init && (root == 2 ==> again != []) && (root == 1 || root == 2) && s != "b"
    ensures var beside := init + ["b"];
      Covers(root, again, root, beside) && !Covers(root, init + [s], root, beside) && !Covers(root, beside, root, init + [s])
  {
    var own, beside := init + [s], init + ["b"];
    assert own[|init|] == s && beside[|init|] == "b";
    assert again <= beside;
  }

  ghost predicate AgreesOnSettled(p: string) {
    forall q :: Settles(q) ==> Agree(p, q)
  }

  /** The set comparison agrees with the comparison of two paths, for `p` against every path whose canonical form
      does not end in white space, exactly when the canonical form of `p` does not end in white space either, or
      `p` is refused by both. */
  lemma {:induction false} SetTestAgreesIff(p: string)
    ensures AgreesOnSettled(p) <==> (Canonical(p).Ok? ==> Settles(p))
  {
    if Canonical(p).Err? {
      forall q | Settles(q) ensures Agree(p, q) { RefusedByBoth(p, q); }
    } else if Settles(p) {
      forall q | Settles(q) ensures Agree(p, q) {
        SingletonSets(p, q);
        SettledTwice(p, q);
      }
    } else {
      IdempotentIff(p);
      var own := Segments(Strip(p));
      assert own == own[..|own| - 1] + [own[|own| - 1]];
      var q := RaggedDisagrees(p, own[..|own| - 1], own[|own| - 1]);
    }
  }

  lemma {:induction false} RefusedByBoth(p: string, q: string)
    requires Canonical(p).Err?
    ensures Agree(p, q)
  {
    assert CanonicalAll([p]) == Err(Canonical(p).error);
  }

  // ---------------------------------------------------------------- one batch that selects both

  lemma {:induction false} FirstFits(c: Context, t: Task, path: string, claim: string)
    requires c.attempts == [] && c.limit > 0 && c.perTemplate == map[]
    requires PathsOf(c, t) == [path] && Canonical(path) == Ok(claim) && Canonical(claim).Ok?
    ensures Consider(c, t, [], []) == Fits([claim])
  {
    SingleCanonical(path, claim);
    SingleCanonical(claim, Canon(claim));
    NothingToMeet([claim]);
  }

  lemma {:induction false} SecondFits(c: Context, first: Task, t: Task, held: string, path: string)
    requires c.attempts == [] && c.limit > 1 && c.perTemplate == map[]
    requires PathsOf(c, t) == [path] && Canonical(path) == Ok(path) && SetsConflict([path], [held]) == Ok(false)
    ensures Consider(c, t, [first], [[held]]) == Fits([path])
  {
    SingleCanonical(path, path);
    NothingToMeet([path]);
  }

  lemma {:induction false} NothingToMeet(paths: seq<string>)
    requires CanonicalPaths(paths).Ok?
    ensures ExclusiveConflicts(paths, []) == Ok([])
  {
  }

  lemma {:induction false} BothSelected(c: Context, first: Task, second: Task, x: seq<string>, y: seq<string>)
    requires Consider(c, first, [], []) == Fits(x) && Consider(c, second, [first], [x]) == Fits(y)
    ensures ScheduleFrom(c, [first, second], Chosen([], [], [])) == Ok(Chosen([first, second], [x, y], []))
  {
    assert [first, second][1..] == [second] && [second][1..] == [];
    assert [] + [first] == [first] && [first] + [second] == [first, second];
    assert [] + [x] == [x] && [x] + [y] == [x, y];
    assert ScheduleFrom(c, [second], Chosen([first], [x], [])) == ScheduleFrom(c, [], Chosen([first, second], [x, y], []));
  }

  /** Nothing is held, there is room for two, and they ask for "/a /" and for a path below it. */
  function TwoRequests(first: Task, second: Task): Context {
    Context([], 2, map[], map[first.AsRef() := ["/a /"], second.AsRef() := ["/a /b"]])
  }

  /** One batch selects both, although their paths overlap. */
  lemma {:induction false} BatchSelectsOverlapping(first: Task, second: Task)
    requires first.AsRef() != second.AsRef()
    ensures ScheduleFrom(TwoRequests(first, second), [first, second], Chosen([], [], []))
            == Ok(Chosen([first, second], [["/a "], ["/a /b"]], []))
    ensures PathsConflict("/a /", "/a /b") == Ok(true) && Overlap("/a ", "/a /b")
  {
    var c := TwoRequests(first, second);
    NotAlwaysIdempotent();
    ChildIsCanonical();
    UnstablePathsEscape();
    OverlapDepends();
    ClaimsDoNotMeet();
    FirstFits(c, first, "/a /", "/a ");
    SecondFits(c, first, second, "/a ", "/a /b");
    BothSelected(c, first, second, ["/a "], ["/a /b"]);
  }

  lemma {:induction false} ClaimsDoNotMeet()
    ensures SetsConflict(["/a /b"], ["/a "]) == Ok(false)
  {
    NotAlwaysIdempotent();
    ChildIsCanonical();
    OverlapDepends();
    ShortIsCanonical();
    TwiceCanonical();
    SingletonSets("/a /b", "/a ");
  }

  lemma {:induction false} TwiceCanonical()
    requires Canonical("/a /b") == Ok("/a /b") && Canonical("/a ") == Ok("/a") && Canonical("/a") == Ok("/a")
    ensures Canon(Canon("/a /b")) == "/a /b" && Canon(Canon("/a ")) == "/a"
  {
  }

  lemma {:induction false} ShortIsCanonical()
    ensures Canonical("/a") == Ok("/a")
  {
    assert AllPlain(["a"]) && "/a" == Render(1, ["a"]);
    RenderSettles(1, ["a"]);
  }
}
