/** Which work an Intent rebase invalidates: the initial set closed under "depends on something invalidated"
    (`_close_replacements`). */
module Closure {
  import opened Core
  import opened Items
  import A = Acyclic

  predicate MentionsAny(m: Item, s: set<Ref>) {
    exists i :: 0 <= i < |m.Mentions()| && m.Mentions()[i] in s
  }

  /** One sweep over the items; the set grows during the sweep. */
  function Sweep(items: seq<Item>, s: set<Ref>): (r: set<Ref>)
    ensures s <= r <= s + Elements(RefsOf(items))
    decreases |items|
  {
    if items == [] then s
    else
      var m := items[0];
      assert RefsOf(items) == [m.AsRef()] + RefsOf(items[1..]);
      Sweep(items[1..], if m.AsRef() in s || !MentionsAny(m, s) then s else s + {m.AsRef()})
  }

  /** Sweeps until a sweep adds nothing. */
  function Close(items: seq<Item>, s: set<Ref>): (r: set<Ref>)
    ensures s <= r
    decreases |Elements(RefsOf(items)) - s|
  {
    var next := Sweep(items, s);
    if next == s then s
    else
      SweepShrinks(items, s);
      Close(items, next)
  }

  lemma {:induction false} SweepShrinks(items: seq<Item>, s: set<Ref>)
    requires Sweep(items, s) != s
    ensures |Elements(RefsOf(items)) - Sweep(items, s)| < |Elements(RefsOf(items)) - s|
  {
    var all, next := Elements(RefsOf(items)), Sweep(items, s);
    var x :| x in next && x !in s;
    assert x in all - s && x !in all - next;
    A.SmallerSet(all - next, all - s);
  }

  /** Every listed item that mentions a member is a member. */
  predicate ClosedUnder(items: seq<Item>, s: set<Ref>) {
    forall i :: 0 <= i < |items| && MentionsAny(items[i], s) ==> items[i].AsRef() in s
  }

  lemma {:induction false} ClosedTail(items: seq<Item>, s: set<Ref>)
    requires items != []
    ensures ClosedUnder(items, s) <==> (MentionsAny(items[0], s) ==> items[0].AsRef() in s) && ClosedUnder(items[1..], s)
  {
  }

  lemma {:induction false} SweepStays(items: seq<Item>, s: set<Ref>)
    ensures Sweep(items, s) == s <==> ClosedUnder(items, s)
    decreases |items|
  {
    if items != [] {
      ClosedTail(items, s);
      SweepStays(items[1..], s);
    }
  }

  lemma {:induction false} SweepBelow(items: seq<Item>, s: set<Ref>, bound: set<Ref>)
    requires s <= bound && ClosedUnder(items, bound)
    ensures Sweep(items, s) <= bound
    decreases |items|
  {
    if items != [] {
      var m := items[0];
      if MentionsAny(m, s) {
        var k :| 0 <= k < |m.Mentions()| && m.Mentions()[k] in s;
        assert MentionsAny(items[0], bound);
      }
      ClosedTail(items, bound);
      SweepBelow(items[1..], if m.AsRef() in s || !MentionsAny(m, s) then s else s + {m.AsRef()}, bound);
    }
  }

  /** The closure is the least dependents-closed superset of the initial set, and adds only listed items. */
  lemma {:induction false} CloseIsLeast(items: seq<Item>, s: set<Ref>)
    ensures s <= Close(items, s) <= s + Elements(RefsOf(items)) && ClosedUnder(items, Close(items, s))
    ensures forall bound: set<Ref> :: s <= bound && ClosedUnder(items, bound) ==> Close(items, s) <= bound
    decreases |Elements(RefsOf(items)) - s|
  {
    var next := Sweep(items, s);
    SweepStays(items, s);
    if next != s {
      SweepShrinks(items, s);
      CloseIsLeast(items, next);
    }
    forall bound: set<Ref> | s <= bound && ClosedUnder(items, bound) ensures Close(items, s) <= bound {
      SweepBelow(items, s, bound);
    }
  }

  lemma {:induction false} SweepConcat(a: seq<Item>, b: seq<Item>, s: set<Ref>)
    ensures Sweep(a + b, s) == Sweep(b, Sweep(a, s))
    decreases |a|
  {
    if a == [] {
      assert a + b == b;
    } else {
      assert (a + b)[1..] == a[1..] + b;
      SweepConcat(a[1..], b, if a[0].AsRef() in s || !MentionsAny(a[0], s) then s else s + {a[0].AsRef()});
    }
  }

  /** The source's loop: sweeps over the Tasks and then the Groups until nothing changed. */
  method CloseReplacements(tasks: seq<Item>, groups: seq<Item>, initial: set<Ref>) returns (replacements: set<Ref>)
    ensures replacements == Close(tasks + groups, initial)
  {
    replacements := initial;
    var changed := true;
    ghost var all := Elements(RefsOf(tasks + groups));
    while changed
      invariant if changed then Close(tasks + groups, replacements) == Close(tasks + groups, initial)
                else replacements == Close(tasks + groups, initial)
      decreases |all - replacements|, if changed then 1 else 0
    {
      ghost var before := replacements;
      var grew := SweepOnce(tasks, replacements);
      var more := SweepOnce(groups, grew);
      SweepConcat(tasks, groups, before);
      changed := more != replacements;
      if changed { SweepShrinks(tasks + groups, before); }
      replacements := more;
    }
  }

  method SweepOnce(items: seq<Item>, initial: set<Ref>) returns (s: set<Ref>)
    ensures s == Sweep(items, initial)
  {
    s := initial;
    for i := 0 to |items|
      invariant Sweep(items[i..], s) == Sweep(items, initial)
    {
      assert items[i..][0] == items[i] && items[i..][1..] == items[i + 1..];
      if items[i].AsRef() !in s && MentionsAny(items[i], s) { s := s + {items[i].AsRef()}; }
    }
    assert items[|items|..] == [];
  }
}
