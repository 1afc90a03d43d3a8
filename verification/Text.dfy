/** Python's `str.strip()` and the emptiness test built on it. */
module Text {
  /** The characters for which `str.isspace()` holds. */
  predicate IsSpace(c: char) {
    || '\t' <= c <= '\r' || '\U{1c}' <= c <= ' '  || c == '\U{85}' || c == '\U{a0}' || c == '\U{1680}'
    || '\U{2000}' <= c <= '\U{200a}' || c == '\U{2028}' || c == '\U{2029}' || c == '\U{202f}' || c == '\U{205f}' || c == '\U{3000}'
  }

  function StripLeft(s: string): (r: string)
    ensures |r| <= |s| && (r != [] ==> !IsSpace(r[0]))
    ensures s != [] && !IsSpace(s[0]) ==> r == s
  {
    if s != [] && IsSpace(s[0]) then StripLeft(s[1..]) else s
  }

  function StripRight(s: string): (r: string)
    ensures r <= s && (r != [] ==> !IsSpace(r[|r| - 1]))
    ensures s != [] && !IsSpace(s[|s| - 1]) ==> r == s
  {
    if s != [] && IsSpace(s[|s| - 1]) then StripRight(s[..|s| - 1]) else s
  }

  function Strip(s: string): (r: string)
    ensures r != [] ==> !IsSpace(r[0]) && !IsSpace(r[|r| - 1])
  {
    StripRight(StripLeft(s))
  }

  predicate Blank(s: string) { Strip(s) == [] }

  /** Some character is not white space. */
  ghost predicate HasText(s: string) {
    exists c :: c in s && !IsSpace(c)
  }

  lemma {:induction false} BlankIff(s: string)
    ensures Blank(s) <==> !HasText(s)
  {
    LeftBlank(s);
    if StripLeft(s) != [] { RightKeeps(StripLeft(s)); }
  }

  lemma {:induction false} LeftBlank(s: string)
    ensures StripLeft(s) == [] <==> !HasText(s)
  {
    if s != [] {
      LeftBlank(s[1..]);
      assert s == [s[0]] + s[1..];
    }
  }

  lemma {:induction false} RightKeeps(s: string)
    requires s != [] && !IsSpace(s[0])
    ensures StripRight(s) != []
  {
    if IsSpace(s[|s| - 1]) { RightKeeps(s[..|s| - 1]); }
  }
}
