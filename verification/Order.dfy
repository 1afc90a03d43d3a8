/** Sorting by a key order, with what makes its result independent of the order of its input. */
module Order {
  /** Strings compare by their first different character, as Python's do. */
  function LessEq(a: string, b: string): bool {
    a == [] || (b != [] && (a[0] < b[0] || (a[0] == b[0] && LessEq(a[1..], b[1..]))))
  }

  lemma {:induction false} LessEqTotal(a: string, b: string)
    ensures LessEq(a, b) || LessEq(b, a)
    ensures LessEq(a, b) && LessEq(b, a) ==> a == b
    decreases |a|
  {
    if a != [] && b != [] && a[0] == b[0] {
      LessEqTotal(a[1..], b[1..]);
      if LessEq(a, b) && LessEq(b, a) { assert a == [a[0]] + a[1..] && b == [b[0]] + b[1..]; }
    }
  }

  lemma {:induction false} LessEqTransitive(a: string, b: string, c: string)
    requires LessEq(a, b) && LessEq(b, c)
    ensures LessEq(a, c)
    decreases |a|
  {
    if a != [] && a[0] == b[0] && b[0] == c[0] { LessEqTransitive(a[1..], b[1..], c[1..]); }
  }

  /** One string is a beginning of the other, or is smaller at the first place where they differ. */
  lemma {:induction false} LessEqIff(a: string, b: string)
    ensures LessEq(a, b) <==> a <= b || exists k :: 0 <= k < |a| && k < |b| && a[..k] == b[..k] && a[k] < b[k]
    decreases |a|
  {
    if a != [] && b != [] && a[0] == b[0] {
      LessEqIff(a[1..], b[1..]);
      assert a == [a[0]] + a[1..] && b == [b[0]] + b[1..];
      assert a <= b <==> a[1..] <= b[1..];
      if k :| 0 <= k < |a[1..]| && k < |b[1..]| && a[1..][..k] == b[1..][..k] && a[1..][k] < b[1..][k] {
        assert a[..k + 1] == [a[0]] + a[1..][..k] && b[..k + 1] == [b[0]] + b[1..][..k];
        assert a[k + 1] < b[k + 1];
      }
      if k :| 0 <= k < |a| && k < |b| && a[..k] == b[..k] && a[k] < b[k] {
        assert k > 0;
        assert a[1..][..k - 1] == a[..k][1..] && b[1..][..k - 1] == b[..k][1..];
        assert a[1..][k - 1] < b[1..][k - 1];
      }
    } else if a != [] && b != [] {
      assert a[..0] == b[..0];
      if a[0] < b[0] { assert a[..0] == b[..0] && a[0] < b[0]; }
    }
  }

  ghost predicate Comparable<T(!new)>(before: (T, T) -> bool, x: T, y: T) {
    before(x, y) || before(y, x)
  }

  ghost predicate Transits<T(!new)>(before: (T, T) -> bool, x: T, y: T, z: T) {
    before(x, y) && before(y, z) ==> before(x, z)
  }

  ghost predicate Preorder<T(!new)>(before: (T, T) -> bool) {
    (forall x, y :: Comparable(before, x, y)) && (forall x, y, z :: Transits(before, x, y, z))
  }

  ghost predicate Sorted<T>(s: seq<T>, before: (T, T) -> bool) {
    forall i, j :: 0 <= i < j < |s| ==> before(s[i], s[j])
  }

  ghost predicate Apart<T(!new)>(before: (T, T) -> bool, x: T, y: T) {
    before(x, y) && before(y, x) ==> x == y
  }

  /** No two listed elements are equivalent in the order unless they are equal. */
  ghost predicate Separates<T(!new)>(s: seq<T>, before: (T, T) -> bool) {
    forall x, y :: x in s && y in s ==> Apart(before, x, y)
  }

  function Insert<T>(x: T, s: seq<T>, before: (T, T) -> bool): seq<T> {
    if s == [] then [x]
    else if before(x, s[0]) then [x] + s
    else [s[0]] + Insert(x, s[1..], before)
  }

  /** Python's `sorted` with a key: stable, smallest first. */
  function Sort<T>(s: seq<T>, before: (T, T) -> bool): seq<T> {
    if s == [] then [] else Insert(s[0], Sort(s[1..], before), before)
  }

  lemma {:induction false} HeadAndTail<T>(s: seq<T>)
    requires s != []
    ensures multiset(s) == multiset{s[0]} + multiset(s[1..]) && multiset(s[1..]) == multiset(s) - multiset{s[0]}
  {
    assert s == [s[0]] + s[1..];
  }

  lemma {:induction false} FirstIsLeast<T(!new)>(s: seq<T>, x: T, before: (T, T) -> bool)
    requires Preorder(before) && Sorted(s, before) && x in s
    ensures before(s[0], x)
  {
    assert Comparable(before, x, x);
    var i :| 0 <= i < |s| && s[i] == x;
  }

  lemma {:induction false} SortedCons<T>(x: T, s: seq<T>, before: (T, T) -> bool)
    requires Sorted(s, before) && forall y :: y in s ==> before(x, y)
    ensures Sorted([x] + s, before)
  {
  }

  lemma {:induction false} SortedTail<T>(s: seq<T>, before: (T, T) -> bool)
    requires s != [] && Sorted(s, before)
    ensures Sorted(s[1..], before)
  {
  }

  lemma {:induction false} InsertKeeps<T(!new)>(x: T, s: seq<T>, before: (T, T) -> bool)
    requires Preorder(before) && Sorted(s, before)
    ensures Sorted(Insert(x, s, before), before) && multiset(Insert(x, s, before)) == multiset(s) + multiset{x}
    decreases |s|
  {
    if s != [] {
      if before(x, s[0]) {
        forall y | y in s ensures before(x, y) {
          FirstIsLeast(s, y, before);
          assert Transits(before, x, s[0], y);
        }
        SortedCons(x, s, before);
      } else {
        SortedTail(s, before);
        InsertKeeps(x, s[1..], before);
        HeadAndTail(s);
        InsertAfterHead(x, s, before);
      }
    }
  }

  lemma {:induction false} InsertAfterHead<T(!new)>(x: T, s: seq<T>, before: (T, T) -> bool)
    requires Preorder(before) && s != [] && Sorted(s, before) && !before(x, s[0])
    requires Sorted(Insert(x, s[1..], before), before) && multiset(Insert(x, s[1..], before)) == multiset(s[1..]) + multiset{x}
    ensures Sorted([s[0]] + Insert(x, s[1..], before), before)
  {
    var rest := Insert(x, s[1..], before);
    assert Comparable(before, x, s[0]);
    forall y | y in rest ensures before(s[0], y) {
      assert y in multiset(rest);
      if y != x { assert y in multiset(s[1..]); FirstIsLeast(s, y, before); }
    }
    SortedCons(s[0], rest, before);
  }

  /** Sorting permutes into order. */
  lemma {:induction false} SortSorts<T(!new)>(s: seq<T>, before: (T, T) -> bool)
    requires Preorder(before)
    ensures Sorted(Sort(s, before), before) && multiset(Sort(s, before)) == multiset(s)
    ensures forall x :: x in Sort(s, before) <==> x in s
    decreases |s|
  {
    if s != [] {
      SortSorts(s[1..], before);
      InsertKeeps(s[0], Sort(s[1..], before), before);
      HeadAndTail(s);
    }
    forall x ensures x in Sort(s, before) <==> x in s {
      assert x in multiset(s) <==> x in s;
      assert x in multiset(Sort(s, before)) <==> x in Sort(s, before);
    }
  }

  lemma {:induction false} SameHead<T(!new)>(a: seq<T>, b: seq<T>, before: (T, T) -> bool)
    requires Preorder(before) && Sorted(a, before) && Sorted(b, before) && multiset(a) == multiset(b) && Separates(a, before)
    requires a != [] && b != []
    ensures a[0] == b[0] && Separates(a[1..], before)
  {
    assert b[0] in multiset(a) && a[0] in multiset(b);
    FirstIsLeast(a, b[0], before);
    FirstIsLeast(b, a[0], before);
    assert Apart(before, a[0], b[0]);
  }

  lemma {:induction false} SameTails<T>(a: seq<T>, b: seq<T>)
    requires a != [] && b != [] && a[0] == b[0] && multiset(a) == multiset(b)
    ensures multiset(a[1..]) == multiset(b[1..])
  {
    HeadAndTail(a);
    HeadAndTail(b);
  }

  /** Two sorted arrangements of the same elements are equal when the order separates them. */
  lemma {:induction false} SortedUnique<T(!new)>(a: seq<T>, b: seq<T>, before: (T, T) -> bool)
    requires Preorder(before) && Sorted(a, before) && Sorted(b, before) && multiset(a) == multiset(b) && Separates(a, before)
    ensures a == b
    decreases |a|
  {
    assert |multiset(a)| == |a| && |multiset(b)| == |b|;
    if a != [] {
      SameHead(a, b, before);
      SortedTail(a, before);
      SortedTail(b, before);
      SameTails(a, b);
      SortedUnique(a[1..], b[1..], before);
      assert a == [a[0]] + a[1..] && b == [b[0]] + b[1..];
    }
  }

  /** Sorting forgets the order of its input. */
  lemma {:induction false} SortForgetsOrder<T(!new)>(a: seq<T>, b: seq<T>, before: (T, T) -> bool)
    requires Preorder(before) && multiset(a) == multiset(b) && Separates(a, before)
    ensures Sort(a, before) == Sort(b, before)
  {
    SortSorts(a, before);
    SortSorts(b, before);
    SortedUnique(Sort(a, before), Sort(b, before), before);
  }

  /** How many elements satisfy `p`. */
  function Count<T>(s: seq<T>, p: T -> bool): nat {
    if s == [] then 0 else (if p(s[0]) then 1 else 0) + Count(s[1..], p)
  }

  lemma {:induction false} CountConcat<T>(a: seq<T>, b: seq<T>, p: T -> bool)
    ensures Count(a + b, p) == Count(a, p) + Count(b, p)
    decreases |a|
  {
    if a == [] { assert a + b == b; } else { assert (a + b)[1..] == a[1..] + b; CountConcat(a[1..], b, p); }
  }

  lemma {:induction false} CountNone<T>(s: seq<T>, p: T -> bool)
    ensures Count(s, p) == 0 <==> forall i :: 0 <= i < |s| ==> !p(s[i])
    decreases |s|
  {
    if s != [] {
      CountNone(s[1..], p);
      if forall i :: 0 <= i < |s[1..]| ==> !p(s[1..][i]) {
        forall i | 1 <= i < |s| ensures !p(s[i]) { assert s[1..][i - 1] == s[i]; }
      }
      forall i | 0 <= i < |s[1..]| ensures s[1..][i] == s[i + 1] {}
    }
  }

  /** Place `k` is the only one that satisfies `p`. */
  ghost predicate OnlyAt<T>(s: seq<T>, p: T -> bool, k: nat) {
    k < |s| && forall i :: 0 <= i < |s| ==> (p(s[i]) <==> i == k)
  }

  lemma {:induction false} CountOneIff<T>(s: seq<T>, p: T -> bool)
    ensures Count(s, p) == 1 <==> exists k :: OnlyAt(s, p, k)
    decreases |s|
  {
    if s != [] {
      var rest := s[1..];
      forall i | 0 <= i < |rest| ensures rest[i] == s[i + 1] {}
      CountOneIff(rest, p);
      CountNone(rest, p);
      if p(s[0]) {
        if Count(rest, p) == 0 {
          forall i | 0 <= i < |s| ensures p(s[i]) <==> i == 0 { if i > 0 { assert s[i] == rest[i - 1]; } }
          assert OnlyAt(s, p, 0);
        } else {
          var i :| 0 <= i < |rest| && p(rest[i]);
          assert p(s[0]) && p(s[i + 1]);
        }
      } else {
        if k: nat :| OnlyAt(rest, p, k) {
          forall i | 0 <= i < |s| ensures p(s[i]) <==> i == k + 1 { if i > 0 { assert s[i] == rest[i - 1]; } }
          assert OnlyAt(s, p, k + 1);
        }
        if k: nat :| OnlyAt(s, p, k) { assert OnlyAt(rest, p, k - 1); }
      }
    }
  }

  lemma {:induction false} CountForgetsOrder<T>(a: seq<T>, b: seq<T>, p: T -> bool)
    requires multiset(a) == multiset(b)
    ensures Count(a, p) == Count(b, p)
    decreases |a|
  {
    assert |multiset(a)| == |a| && |multiset(b)| == |b|;
    if a != [] {
      assert a[0] in multiset(b);
      var j :| 0 <= j < |b| && b[j] == a[0];
      var rest := b[..j] + b[j + 1..];
      assert b == b[..j] + [a[0]] + b[j + 1..];
      HeadAndTail(a);
      assert multiset(rest) == multiset(b) - multiset{a[0]};
      CountForgetsOrder(a[1..], rest, p);
      CountConcat(b[..j], b[j + 1..], p);
      CountConcat(b[..j] + [a[0]], b[j + 1..], p);
      CountConcat(b[..j], [a[0]], p);
    }
  }

  lemma {:induction false} DistinctMultiset<T>(s: seq<T>)
    requires forall i, j :: 0 <= i < j < |s| ==> s[i] != s[j]
    ensures forall x :: multiset(s)[x] == if x in s then 1 else 0
    decreases |s|
  {
    if s != [] {
      HeadAndTail(s);
      forall i, j | 0 <= i < j < |s[1..]| ensures s[1..][i] != s[1..][j] { assert s[i + 1] != s[j + 1]; }
      DistinctMultiset(s[1..]);
      assert s[0] !in s[1..];
      assert forall x :: x in s <==> x == s[0] || x in s[1..];
    }
  }
}
