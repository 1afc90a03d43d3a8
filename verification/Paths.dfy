/** Exclusive resource paths: their canonical form (`canonical_resource_path`, over Python's
    `posixpath.normpath`) and when two of them conflict. */
module Paths {
  import opened Core
  import opened Text

  datatype PathError = EmptyPath | RelativePath

  // ---------------------------------------------------------------- normpath

  /** Python's `s.split("/")`. */
  function Split(s: string): (r: seq<string>)
    ensures |r| > 0 && forall i :: 0 <= i < |r| ==> '/' !in r[i]
  {
    if s == [] then [[]]
    else
      var r := Split(s[1..]);
      if s[0] == '/' then [[]] + r else [[s[0]] + r[0]] + r[1..]
  }

  /** Python's `"/".join(segments)`. */
  function Join(segments: seq<string>): string {
    if segments == [] then []
    else if |segments| == 1 then segments[0]
    else segments[0] + "/" + Join(segments[1..])
  }

  /** A segment that survives normalisation. */
  predicate Plain(segment: string) {
    segment != [] && segment != "." && segment != ".." && '/' !in segment
  }

  predicate AllPlain(segments: seq<string>) {
    forall i :: 0 <= i < |segments| ==> Plain(segments[i])
  }

  /** Drops empty and "." segments; ".." removes the segment before it, if any. */
  function Walk(parts: seq<string>, kept: seq<string>): (r: seq<string>)
    requires AllPlain(kept) && forall i :: 0 <= i < |parts| ==> '/' !in parts[i]
    ensures AllPlain(r)
    decreases |parts|
  {
    if parts == [] then kept
    else
      var p := parts[0];
      Walk(parts[1..], if p == [] || p == "." then kept else if p != ".." then kept + [p] else if kept == [] then [] else kept[..|kept| - 1])
  }

  /** The canonical segments of an absolute path. */
  function Segments(value: string): (r: seq<string>)
    ensures AllPlain(r)
  {
    Walk(Split(value), [])
  }

  /** Two when the path starts with exactly two slashes, which POSIX.1-2017 (Base Definitions, section 4.13)
      lets mean something else, so `normpath` keeps them. */
  function Root(value: string): (r: nat)
    ensures r == 1 || r == 2
  {
    if "//" <= value && !("///" <= value) then 2 else 1
  }

  function Render(root: nat, segments: seq<string>): (r: string)
    requires root == 1 || root == 2
    ensures r != [] && r[0] == '/'
  {
    (if root == 2 then "//" else "/") + Join(segments)
  }

  function Normpath(value: string): string {
    Render(Root(value), Segments(value))
  }

  /** The result starts with a slash, so the source's last check, for a path that escapes the root, never
      fires. */
  function Canonical(path: string): (r: Result<string, PathError>)
    ensures r.Ok? ==> r.value != [] && r.value[0] == '/'
  {
    if Blank(path) then Err(EmptyPath)
    else if Strip(path)[0] != '/' then Err(RelativePath)
    else Ok(Normpath(Strip(path)))
  }

  predicate IsAncestor(parent: string, child: string) {
    if parent == "/" then child != "/" else parent + "/" <= child
  }

  predicate Overlap(first: string, second: string) {
    first == second || IsAncestor(first, second) || IsAncestor(second, first)
  }

  function PathsConflict(left: string, right: string): Result<bool, PathError> {
    match Canonical(left)
    case Err(e) => Err(e)
    case Ok(first) =>
      match Canonical(right)
      case Err(e) => Err(e)
      case Ok(second) => Ok(Overlap(first, second))
  }

  // ---------------------------------------------------------------- reading a rendered path back

  lemma {:induction false} SplitPlain(s: string, rest: string)
    requires '/' !in s
    ensures Split(s + "/" + rest) == [s] + Split(rest) && Split(s) == [s]
    decreases |s|
  {
    var all := s + "/" + rest;
    if s == [] {
      assert all[0] == '/' && all[1..] == rest;
    } else {
      assert all[1..] == s[1..] + "/" + rest && s == [s[0]] + s[1..];
      SplitPlain(s[1..], rest);
    }
  }

  lemma {:induction false} SplitJoin(segments: seq<string>)
    requires segments != [] && forall i :: 0 <= i < |segments| ==> '/' !in segments[i]
    ensures Split(Join(segments)) == segments
    decreases |segments|
  {
    if |segments| == 1 {
      SplitPlain(segments[0], []);
    } else {
      SplitJoin(segments[1..]);
      SplitPlain(segments[0], Join(segments[1..]));
      assert segments == [segments[0]] + segments[1..];
      assert Join(segments) == segments[0] + "/" + Join(segments[1..]);
    }
  }

  lemma {:induction false} WalkPlain(parts: seq<string>, kept: seq<string>)
    requires AllPlain(kept) && AllPlain(parts)
    ensures Walk(parts, kept) == kept + parts
    decreases |parts|
  {
    if parts != [] {
      assert Plain(parts[0]);
      WalkPlain(parts[1..], kept + [parts[0]]);
      assert kept + [parts[0]] + parts[1..] == kept + parts;
    }
  }

  lemma {:induction false} WalkSkipsEmpty(parts: seq<string>, kept: seq<string>)
    requires AllPlain(kept) && forall i :: 0 <= i < |parts| ==> '/' !in parts[i]
    ensures Walk([[]] + parts, kept) == Walk(parts, kept)
  {
  }

  lemma {:induction false} JoinStartsPlain(segments: seq<string>)
    requires AllPlain(segments)
    ensures Join(segments) == [] <==> segments == []
    ensures segments != [] ==> Join(segments)[0] == segments[0][0] && segments[0][0] != '/'
  {
  }

  lemma {:induction false} WalkPlainThen(init: seq<string>, parts: seq<string>, kept: seq<string>)
    requires AllPlain(kept) && AllPlain(init) && forall i :: 0 <= i < |parts| ==> '/' !in parts[i]
    ensures AllPlain(kept + init) && Walk(init + parts, kept) == Walk(parts, kept + init)
    decreases |init|
  {
    if init == [] {
      assert init + parts == parts && kept + init == kept;
    } else {
      assert Plain(init[0]);
      WalkPlainThen(init[1..], parts, kept + [init[0]]);
      assert (init + parts)[1..] == init[1..] + parts && kept + [init[0]] + init[1..] == kept + init;
    }
  }

  /** Slashes followed by joined parts, of which only the last may be empty, are read as those parts. */
  lemma {:induction false} ReadParts(root: nat, parts: seq<string>)
    requires (root == 1 || root == 2) && parts != [] && forall i :: 0 <= i < |parts| ==> '/' !in parts[i]
    requires |parts| > 1 ==> parts[0] != []
    ensures Root(Render(root, parts)) == root && Segments(Render(root, parts)) == Walk(parts, [])
  {
    var body, path := Join(parts), Render(root, parts);
    assert body != [] ==> body[0] != '/';
    SplitJoin(parts);
    assert Split("/" + body) == [[]] + parts by { assert ("/" + body)[1..] == body; }
    assert Split("//" + body) == [[]] + Split("/" + body) by { assert ("//" + body)[1..] == "/" + body; }
    WalkSkipsEmpty(parts, []);
    WalkSkipsEmpty(Split("/" + body), []);
  }

  /** A rendered path gives its root and its segments back. */
  lemma {:induction false} ReadBack(root: nat, segments: seq<string>)
    requires (root == 1 || root == 2) && AllPlain(segments)
    ensures Root(Render(root, segments)) == root && Segments(Render(root, segments)) == segments
  {
    if segments == [] {
      ReadParts(root, [[]]);
      WalkSkipsEmpty([], []);
      assert Render(root, [[]]) == Render(root, []);
    } else {
      ReadParts(root, segments);
      WalkPlain(segments, []);
    }
  }

  lemma {:induction false} RenderInjective(root: nat, segments: seq<string>, root': nat, segments': seq<string>)
    requires (root == 1 || root == 2) && (root' == 1 || root' == 2) && AllPlain(segments) && AllPlain(segments')
    ensures Render(root, segments) == Render(root', segments') <==> root == root' && segments == segments'
  {
    ReadBack(root, segments);
    ReadBack(root', segments');
  }

  // ---------------------------------------------------------------- which paths are accepted, and what is kept

  /** The first character that is not white space is a slash, at place `k`. */
  ghost predicate SlashFirst(path: string, k: nat) {
    k < |path| && path[k] == '/' && forall i :: 0 <= i < k ==> IsSpace(path[i])
  }

  /** A path is accepted exactly when its first character that is not white space is a slash; without any such
      character it is empty. */
  lemma {:induction false} CanonicalIff(path: string)
    ensures Canonical(path).Ok? <==> exists k :: SlashFirst(path, k)
    ensures Canonical(path) == Err(EmptyPath) <==> !HasText(path)
  {
    BlankIff(path);
    FirstText(path);
    if StripLeft(path) != [] { RightKeeps(StripLeft(path)); }
  }

  lemma {:induction false} FirstText(path: string)
    ensures StripLeft(path) != [] && StripLeft(path)[0] == '/' <==> exists k :: SlashFirst(path, k)
    decreases |path|
  {
    if path != [] && IsSpace(path[0]) {
      FirstText(path[1..]);
      if k: nat :| SlashFirst(path[1..], k) {
        forall i | 0 <= i < k + 1 ensures IsSpace(path[i]) { if i > 0 { assert path[i] == path[1..][i - 1]; } }
        assert SlashFirst(path, k + 1);
      }
      if k: nat :| SlashFirst(path, k) {
        forall i | 0 <= i < k - 1 ensures IsSpace(path[1..][i]) { assert path[1..][i] == path[i + 1]; }
        assert SlashFirst(path[1..], k - 1);
      }
    } else if path != [] && path[0] == '/' {
      assert SlashFirst(path, 0);
    }
  }

  /** One more part after a slash: empty and "." add nothing, ".." takes the last segment back, and any other part is
      the next segment. */
  lemma {:induction false} SegmentsSnoc(value: string, part: string)
    requires '/' !in part
    ensures var before, after := Segments(value), Segments(value + "/" + part);
      after == if part == "" || part == "." then before
               else if part == ".." then (if before == [] then [] else before[..|before| - 1])
               else before + [part]
  {
    SplitSnoc(value, part);
    WalkSnoc(Split(value), part, []);
  }

  lemma {:induction false} SplitSnoc(value: string, part: string)
    requires '/' !in part
    ensures Split(value + "/" + part) == Split(value) + [part]
    decreases |value|
  {
    var all := value + "/" + part;
    SplitOne(part);
    if value == [] {
      assert all[0] == '/' && all[1..] == part;
    } else {
      assert all[0] == value[0] && all[1..] == value[1..] + "/" + part;
      SplitSnoc(value[1..], part);
    }
  }

  lemma {:induction false} SplitOne(part: string)
    requires '/' !in part
    ensures Split(part) == [part]
    decreases |part|
  {
    if part != [] {
      SplitOne(part[1..]);
      assert part == [part[0]] + part[1..];
    }
  }

  lemma {:induction false} WalkSnoc(parts: seq<string>, part: string, kept: seq<string>)
    requires AllPlain(kept) && (forall i :: 0 <= i < |parts| ==> '/' !in parts[i]) && '/' !in part
    ensures var before, after := Walk(parts, kept), Walk(parts + [part], kept);
      after == if part == "" || part == "." then before
               else if part == ".." then (if before == [] then [] else before[..|before| - 1])
               else before + [part]
    decreases |parts|
  {
    if parts == [] {
      assert [] + [part] == [part] && [part][1..] == [];
    } else {
      var p := parts[0];
      assert (parts + [part])[1..] == parts[1..] + [part];
      WalkSnoc(parts[1..], part, if p == [] || p == "." then kept else if p != ".." then kept + [p] else if kept == [] then [] else kept[..|kept| - 1]);
    }
  }

  /** Only a path that starts with exactly two slashes keeps both. */
  lemma {:induction false} RootIff(value: string)
    ensures Root(value) == 2 <==> |value| >= 2 && value[0] == '/' && value[1] == '/' && (|value| == 2 || value[2] != '/')
  {
  }

  // ---------------------------------------------------------------- idempotence

  /** White space is left at the end of what the segments render to. */
  predicate Ragged(segments: seq<string>)
    requires AllPlain(segments)
  {
    segments != [] && IsSpace(segments[|segments| - 1][|segments[|segments| - 1]| - 1])
  }

  lemma {:induction false} JoinEnds(segments: seq<string>)
    requires AllPlain(segments) && segments != []
    ensures var s := segments[|segments| - 1]; Join(segments) != [] && Join(segments)[|Join(segments)| - 1] == s[|s| - 1]
    decreases |segments|
  {
    assert Plain(segments[|segments| - 1]);
    if |segments| > 1 { JoinEnds(segments[1..]); }
  }

  lemma {:induction false} RenderEnds(root: nat, segments: seq<string>)
    requires (root == 1 || root == 2) && AllPlain(segments)
    ensures IsSpace(Render(root, segments)[|Render(root, segments)| - 1]) <==> Ragged(segments)
  {
    if segments != [] { JoinEnds(segments); }
  }

  lemma {:induction false} JoinSnoc(init: seq<string>, s: string)
    ensures Join(init + [s]) == if init == [] then s else Join(init) + "/" + s
    decreases |init|
  {
    if init == [] {
      assert init + [s] == [s];
    } else {
      JoinSnoc(init[1..], s);
      assert (init + [s])[1..] == init[1..] + [s];
      if |init| > 1 { assert Join(init) + "/" + s == init[0] + "/" + (Join(init[1..]) + "/" + s); }
    }
  }

  lemma {:induction false} StripTail(stem: string, s: string)
    requires stem != [] && !IsSpace(stem[|stem| - 1])
    ensures StripRight(stem + s) == stem + StripRight(s)
    decreases |s|
  {
    if s == [] {
      assert stem + s == stem;
    } else if IsSpace(s[|s| - 1]) {
      assert (stem + s)[..|stem + s| - 1] == stem + s[..|s| - 1];
      StripTail(stem, s[..|s| - 1]);
    }
  }

  function Stem(root: nat, init: seq<string>): string
    requires root == 1 || root == 2
  {
    if init == [] then (if root == 2 then "//" else "/") else Render(root, init) + "/"
  }

  lemma {:induction false} RenderSnoc(root: nat, init: seq<string>, s: string)
    requires root == 1 || root == 2
    ensures Render(root, init + [s]) == Stem(root, init) + s
  {
    JoinSnoc(init, s);
  }

  /** Stripping a rendered path strips its last segment. */
  lemma {:induction false} StripRendered(root: nat, init: seq<string>, s: string)
    requires root == 1 || root == 2
    ensures Strip(Render(root, init + [s])) == Render(root, init + [StripRight(s)])
  {
    RenderSnoc(root, init, s);
    RenderSnoc(root, init, StripRight(s));
    StripTail(Stem(root, init), s);
  }

  /** What a rendered path becomes when it is canonicalised. */
  lemma {:induction false} CanonicalRendered(root: nat, init: seq<string>, s: string)
    requires (root == 1 || root == 2) && AllPlain(init + [s]) && AllPlain(init) && '/' !in StripRight(s)
    ensures Canonical(Render(root, init + [s])) == Ok(Render(root, Walk([StripRight(s)], init)))
  {
    var parts := init + [StripRight(s)];
    assert forall i :: 0 <= i < |init| ==> Plain(init[i]);
    StripRendered(root, init, s);
    ReadParts(root, parts);
    WalkPlainThen(init, [StripRight(s)], []);
    assert [] + init == init;
  }

  /** White space at the end of the last segment is lost, and sometimes the segment or two with it. */
  lemma {:induction false} LastSegment(init: seq<string>, s: string)
    requires AllPlain(init + [s]) && AllPlain(init) && s != [] && IsSpace(s[|s| - 1])
    ensures '/' !in StripRight(s) && StripRight(s) != s
    ensures var s' := StripRight(s);
      Walk([s'], init) == if Plain(s') then init + [s'] else if s' == ".." && init != [] then init[..|init| - 1] else init
  {
    assert Plain((init + [s])[|init|]);
    assert [StripRight(s)][1..] == [];
  }

  /** Canonicalising again changes nothing exactly when the canonical form does not end in white space: it is
      stripped before it is normalised, and normalising can leave white space at the end. It does exactly when
      the last segment that it keeps ends in white space. */
  lemma {:induction false} IdempotentIff(path: string)
    requires Canonical(path).Ok?
    ensures var c := Canonical(path).value; Canonical(c) == Ok(c) <==> !IsSpace(c[|c| - 1])
    ensures var c := Canonical(path).value; Canonical(c) == Ok(c) <==> !Ragged(Segments(Strip(path)))
  {
    RenderStable(Root(Strip(path)), Segments(Strip(path)));
  }

  lemma {:induction false} RenderStable(root: nat, segments: seq<string>)
    requires (root == 1 || root == 2) && AllPlain(segments)
    ensures var c := Render(root, segments);
      (Canonical(c) == Ok(c) <==> !IsSpace(c[|c| - 1])) && (Canonical(c) == Ok(c) <==> !Ragged(segments))
  {
    RenderEnds(root, segments);
    var c := Render(root, segments);
    if Ragged(segments) {
      var init, s := segments[..|segments| - 1], segments[|segments| - 1];
      assert segments == init + [s];
      LastSegment(init, s);
      CanonicalRendered(root, init, s);
      RenderInjective(root, Walk([StripRight(s)], init), root, segments);
    } else {
      ReadBack(root, segments);
      assert Strip(c) == c;
    }
  }

  /** The canonical form, where there is one. */
  function Canon(path: string): string {
    match Canonical(path) case Ok(c) => c case Err(_) => path
  }

  /** A canonical form can always be canonicalised again. */
  lemma {:induction false} CanonicalAgain(path: string)
    requires Canonical(path).Ok?
    ensures Canonical(Canonical(path).value).Ok?
  {
    var c := Canonical(path).value;
    RightKeeps(c);
    assert Strip(c)[0] == c[0];
  }

  /** So canonicalisation is not idempotent on every absolute path. */
  lemma {:induction false} NotAlwaysIdempotent()
    ensures Canonical("/a /") == Ok("/a ") && Canonical("/a ") == Ok("/a")
  {
    FirstPass();
    var second := "/a ";
    assert StripRight(second) == StripRight(second[..2]) && second[..2] == "/a";
    assert Strip(second) == "/a";
    assert AllPlain(["a"]) && "/a" == Render(1, ["a"]);
    ReadBack(1, ["a"]);
  }

  lemma {:induction false} FirstPass()
    ensures Canonical("/a /") == Ok("/a ")
  {
    var first := "/a /";
    assert first[0] == '/' && first[1] == 'a' && first[3] == '/';
    assert Strip(first) == first;
    assert first == "" + "/" + "a /" && "a /" == "a " + "/" + "";
    SplitPlain("", "a /");
    SplitPlain("a ", "");
    assert Split(first) == [[], "a ", []];
    TrailingSlash("a ");
    assert Normpath(first) == Render(1, ["a "]);
    assert Join(["a "]) == "a " && "/" + "a " == "/a ";
    assert Strip(first)[0] == '/' && !Blank(first);
  }

  lemma {:induction false} TrailingSlash(segment: string)
    requires Plain(segment)
    ensures Walk([[], segment, []], []) == [segment]
  {
    var parts: seq<string> := [[], segment, []];
    var none: seq<string> := [];
    assert parts[1..] == [segment, []] && parts[1..][1..] == [[]] && parts[1..][1..][1..] == [];
    assert none + [segment] == [segment];
    assert Walk([[]], [segment]) == [segment];
    assert Walk([segment, []], none) == [segment];
  }

  // ---------------------------------------------------------------- conflicts are segment prefixes

  lemma {:induction false} FirstSlash(a: string, x: string, b: string, y: string)
    requires '/' !in a && '/' !in b
    ensures a + "/" + x <= b + "/" + y <==> a == b && x <= y
  {
    var left, right := a + "/" + x, b + "/" + y;
    if left <= right {
      assert left[|a|] == '/' && right[|b|] == '/';
      assert a == left[..|a|] && b == right[..|b|];
      assert x == left[|a| + 1..] && y == right[|b| + 1..];
    }
    if a == b && x <= y { assert y == x + y[|x|..]; assert right == left + y[|x|..]; }
  }

  lemma {:induction false} JoinPrefix(a: seq<string>, b: seq<string>)
    requires AllPlain(a) && AllPlain(b) && a != []
    ensures Join(a) + "/" <= Join(b) <==> a <= b && a != b
    decreases |a|
  {
    if |b| == 1 {
      var path := Join(a) + "/";
      assert path[|path| - 1] == '/';
      assert Plain(b[0]);
    } else if |b| > 1 {
      var x := if |a| == 1 then "" else Join(a[1..]) + "/";
      assert Join(a) + "/" == a[0] + "/" + x;
      assert Plain(a[0]) && Plain(b[0]);
      FirstSlash(a[0], x, b[0], Join(b[1..]));
      if |a| > 1 { JoinPrefix(a[1..], b[1..]); }
      assert a == [a[0]] + a[1..] && b == [b[0]] + b[1..];
      assert a <= b <==> a[0] == b[0] && a[1..] <= b[1..];
    }
  }

  /** The first path is a proper ancestor of the second. */
  predicate Above(root: nat, a: seq<string>, root': nat, b: seq<string>) {
    if root == 1 && a == [] then !(root' == 1 && b == []) else a != [] && root == root' && a <= b && a != b
  }

  lemma {:induction false} AncestorIff(root: nat, a: seq<string>, root': nat, b: seq<string>)
    requires (root == 1 || root == 2) && (root' == 1 || root' == 2) && AllPlain(a) && AllPlain(b)
    ensures IsAncestor(Render(root, a), Render(root', b)) <==> Above(root, a, root', b)
  {
    var parent, child := Render(root, a), Render(root', b);
    RenderInjective(root, a, 1, []);
    RenderInjective(root', b, 1, []);
    assert Render(1, []) == "/";
    JoinStartsPlain(a);
    JoinStartsPlain(b);
    if parent != "/" {
      if a == [] {
        assert parent + "/" == "///";
        assert root' == 2 && b != [] ==> child[2] == Join(b)[0];
        assert root' == 1 && b != [] ==> child[1] == Join(b)[0];
      } else {
        JoinPrefix(a, b);
        SameRootPrefix(root, Join(a), root', Join(b));
      }
    }
  }

  lemma {:induction false} SameRootPrefix(root: nat, a: string, root': nat, b: string)
    requires (root == 1 || root == 2) && (root' == 1 || root' == 2)
    requires a != [] && a[0] != '/' && (b != [] ==> b[0] != '/')
    ensures var left := (if root == 2 then "//" else "/") + a; var right := (if root' == 2 then "//" else "/") + b;
      left + "/" <= right <==> root == root' && a + "/" <= b
  {
    var left, right := (if root == 2 then "//" else "/") + a, (if root' == 2 then "//" else "/") + b;
    if left + "/" <= right {
      assert (left + "/")[1] == right[1];
      if root == 1 {
        assert left[1] == a[0];
        assert a + "/" == (left + "/")[1..] && b == right[1..];
      } else {
        assert left[1] == '/';
        assert a + "/" == (left + "/")[2..] && b == right[2..];
      }
    }
    if root == root' && a + "/" <= b {
      assert b == a + "/" + b[|a| + 1..];
      assert right == left + "/" + b[|a| + 1..];
    }
  }

  /** `a` is `b` or one of its ancestors. Below a root of two slashes the root itself is an ancestor of
      nothing; the root of one slash is an ancestor of everything. */
  predicate Covers(root: nat, a: seq<string>, root': nat, b: seq<string>) {
    (root == 1 && a == []) || (root == root' && a <= b && (a == [] ==> b == []))
  }

  lemma {:induction false} OverlapIff(root: nat, a: seq<string>, root': nat, b: seq<string>)
    requires (root == 1 || root == 2) && (root' == 1 || root' == 2) && AllPlain(a) && AllPlain(b)
    ensures Overlap(Render(root, a), Render(root', b)) <==> Covers(root, a, root', b) || Covers(root', b, root, a)
  {
    RenderInjective(root, a, root', b);
    AncestorIff(root, a, root', b);
    AncestorIff(root', b, root, a);
  }

  /** Exactly when two absolute paths conflict, in terms of their canonical segments. */
  lemma {:induction false} ConflictIff(left: string, right: string)
    requires Canonical(left).Ok? && Canonical(right).Ok?
    ensures var a, b := Strip(left), Strip(right);
      PathsConflict(left, right) == Ok(Covers(Root(a), Segments(a), Root(b), Segments(b)) || Covers(Root(b), Segments(b), Root(a), Segments(a)))
  {
    var a, b := Strip(left), Strip(right);
    OverlapIff(Root(a), Segments(a), Root(b), Segments(b));
  }

  /** For paths that do not start with exactly two slashes: one segment list is a prefix of the other. */
  lemma {:induction false} ConflictIsPrefix(left: string, right: string)
    requires Canonical(left).Ok? && Canonical(right).Ok? && Root(Strip(left)) == 1 && Root(Strip(right)) == 1
    ensures PathsConflict(left, right) ==
      Ok(Segments(Strip(left)) <= Segments(Strip(right)) || Segments(Strip(right)) <= Segments(Strip(left)))
  {
    ConflictIff(left, right);
  }
}
