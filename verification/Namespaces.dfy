/** Checkpoint namespaces: five identity fields, percent-encoded, and how to read them back. */
module Namespaces {
  import opened Core
  import opened Text
  import opened Paths

  type Bytes = s: seq<int> | forall i :: 0 <= i < |s| ==> 0 <= s[i] < 256

  // ---------------------------------------------------------------- UTF-8

  function Utf8Char(c: char): (b: Bytes)
    ensures |b| > 0
  {
    var n := c as int;
    if n < 0x80 then [n]
    else if n < 0x800 then [0xC0 + n / 64, 0x80 + n % 64]
    else if n < 0x10000 then [0xE0 + n / 4096, 0x80 + n / 64 % 64, 0x80 + n % 64]
    else [0xF0 + n / 262144, 0x80 + n / 4096 % 64, 0x80 + n / 64 % 64, 0x80 + n % 64]
  }

  /** The lengths and the ranges of the bytes are those of section 3 of RFC 3629. */
  lemma {:induction false} Utf8Shape(c: char)
    ensures var n, b := c as int, Utf8Char(c);
      && |b| == (if n <= 0x7F then 1 else if n <= 0x7FF then 2 else if n <= 0xFFFF then 3 else 4)
      && (if |b| == 1 then b[0] <= 0x7F else if |b| == 2 then 0xC2 <= b[0] <= 0xDF else if |b| == 3 then 0xE0 <= b[0] <= 0xEF else 0xF0 <= b[0] <= 0xF4)
      && forall i :: 1 <= i < |b| ==> 0x80 <= b[i] <= 0xBF
  {
  }

  function Utf8(s: string): Bytes {
    if s == [] then [] else Utf8Char(s[0]) + Utf8(s[1..])
  }

  /** The first character of an encoding and the number of its bytes. */
  function FirstCode(b: Bytes): (int, nat)
    requires b != []
  {
    if b[0] < 0xC0 || |b| < 2 then (b[0], 1)
    else if b[0] < 0xE0 || |b| < 3 then ((b[0] - 0xC0) * 64 + (b[1] - 0x80), 2)
    else if b[0] < 0xF0 || |b| < 4 then ((b[0] - 0xE0) * 4096 + (b[1] - 0x80) * 64 + (b[2] - 0x80), 3)
    else ((b[0] - 0xF0) * 262144 + (b[1] - 0x80) * 4096 + (b[2] - 0x80) * 64 + (b[3] - 0x80), 4)
  }

  predicate IsChar(n: int) { 0 <= n < 0xD800 || 0xE000 <= n < 0x110000 }

  function FromUtf8(b: Bytes): Option<string>
    decreases |b|
  {
    if b == [] then Some([])
    else
      var (n, used) := FirstCode(b);
      if !IsChar(n) then None
      else
        match FromUtf8(b[used..])
        case None => None
        case Some(rest) => Some([n as char] + rest)
  }

  lemma {:induction false} FirstOfChar(c: char, rest: Bytes)
    ensures Utf8Char(c) + rest != [] && FirstCode(Utf8Char(c) + rest) == (c as int, |Utf8Char(c)|)
  {
    var n := c as int;
    assert n == n / 64 * 64 + n % 64;
    assert n / 64 == n / 64 / 64 * 64 + n / 64 % 64 && n / 64 / 64 == n / 4096;
    assert n / 4096 == n / 4096 / 64 * 64 + n / 4096 % 64 && n / 4096 / 64 == n / 262144;
  }

  lemma {:induction false} Utf8Back(s: string)
    ensures FromUtf8(Utf8(s)) == Some(s)
    decreases |s|
  {
    if s != [] {
      var first, rest := Utf8Char(s[0]), Utf8(s[1..]);
      FirstOfChar(s[0], rest);
      assert (first + rest)[|first|..] == rest;
      Utf8Back(s[1..]);
      assert s == [s[0]] + s[1..];
    }
  }

  // ---------------------------------------------------------------- percent-encoding

  /** The characters that Python's `quote` with no safe characters leaves alone: the unreserved ones of section
      2.3 of RFC 3986. */
  predicate Unreserved(n: int) {
    'a' as int <= n <= 'z' as int || 'A' as int <= n <= 'Z' as int || '0' as int <= n <= '9' as int
    || n == '_' as int || n == '.' as int || n == '-' as int || n == '~' as int
  }

  function HexDigit(n: int): char
    requires 0 <= n < 16
  {
    if n < 10 then ('0' as int + n) as char else ('A' as int + n - 10) as char
  }

  function HexValue(c: char): int {
    if '0' <= c <= '9' then c as int - '0' as int else if 'A' <= c <= 'F' then c as int - 'A' as int + 10 else -1
  }

  function QuoteByte(b: int): string
    requires 0 <= b < 256
  {
    if Unreserved(b) then [b as char] else ['%', HexDigit(b / 16), HexDigit(b % 16)]
  }

  function QuoteBytes(b: Bytes): string {
    if b == [] then [] else QuoteByte(b[0]) + QuoteBytes(b[1..])
  }

  function UnquoteBytes(t: string): Option<Bytes>
    decreases |t|
  {
    if t == [] then Some([])
    else if t[0] == '%' then
      if |t| < 3 || HexValue(t[1]) < 0 || HexValue(t[2]) < 0 then None
      else
        match UnquoteBytes(t[3..])
        case None => None
        case Some(rest) => Some([HexValue(t[1]) * 16 + HexValue(t[2])] + rest)
    else if t[0] as int >= 128 then None
    else
      match UnquoteBytes(t[1..])
      case None => None
      case Some(rest) => Some([t[0] as int] + rest)
  }

  lemma {:induction false} QuoteByteBack(b: int, rest: string)
    requires 0 <= b < 256 && UnquoteBytes(rest).Some?
    ensures UnquoteBytes(QuoteByte(b) + rest) == Some([b] + UnquoteBytes(rest).value)
    ensures '/' !in QuoteByte(b)
  {
  }

  lemma {:induction false} QuoteBack(b: Bytes)
    ensures UnquoteBytes(QuoteBytes(b)) == Some(b)
    ensures '/' !in QuoteBytes(b)
    decreases |b|
  {
    if b != [] {
      QuoteBack(b[1..]);
      QuoteByteBack(b[0], QuoteBytes(b[1..]));
      assert b == [b[0]] + b[1..];
    }
  }

  function Quote(s: string): string { QuoteBytes(Utf8(s)) }

  function Unquote(t: string): Option<string> {
    match UnquoteBytes(t)
    case None => None
    case Some(b) => FromUtf8(b)
  }

  lemma {:induction false} UnquoteQuote(s: string)
    ensures Unquote(Quote(s)) == Some(s) && '/' !in Quote(s)
  {
    QuoteBack(Utf8(s));
    Utf8Back(s);
  }

  // ---------------------------------------------------------------- decimal numbers

  function Digit(n: int): char
    requires 0 <= n < 10
  {
    ('0' as int + n) as char
  }

  function Decimal(n: nat): (s: string)
    ensures s != [] && '/' !in s
  {
    if n < 10 then [Digit(n)] else Decimal(n / 10) + [Digit(n % 10)]
  }

  function FromDecimal(s: string): Option<nat> {
    if s == [] then Some(0)
    else
      var last := s[|s| - 1];
      if !('0' <= last <= '9') then None
      else
        match FromDecimal(s[..|s| - 1])
        case None => None
        case Some(n) => Some(n * 10 + (last as int - '0' as int))
  }

  lemma {:induction false} DecimalBack(n: nat)
    ensures FromDecimal(Decimal(n)) == Some(n)
  {
    if n < 10 {
      OneMoreDigit([], n);
      assert [] + [Digit(n)] == [Digit(n)];
    } else {
      DecimalBack(n / 10);
      OneMoreDigit(Decimal(n / 10), n % 10);
    }
  }

  lemma {:induction false} OneMoreDigit(s: string, d: nat)
    requires d < 10 && FromDecimal(s).Some?
    ensures FromDecimal(s + [Digit(d)]) == Some(FromDecimal(s).value * 10 + d)
  {
  }

  // ---------------------------------------------------------------- namespaces

  datatype Identity = Identity(root: string, node: string, nodeAttempt: int, attempt: string, child: string)

  datatype NamespaceError = BadNodeAttempt | EmptySegment

  /** The segments of a namespace: fixed words, the encoded fields and the decimal number. */
  function Parts(id: Identity): (parts: seq<string>)
    requires id.nodeAttempt >= 0
    ensures |parts| == 10
  {
    ["roots", Quote(Strip(id.root)), "nodes", Quote(Strip(id.node)), Decimal(id.nodeAttempt),
     "attempts", Quote(Strip(id.attempt)), "children", Quote(Strip(id.child)), "workflow"]
  }

  predicate SegmentOk(value: string) { !Blank(value) && '\0' !in value }

  /** `child_checkpoint_namespace`: the segments with slashes between them. */
  function Namespace(id: Identity): Result<string, NamespaceError> {
    if id.nodeAttempt < 1 then Err(BadNodeAttempt)
    else if !SegmentOk(id.root) || !SegmentOk(id.node) || !SegmentOk(id.attempt) || !SegmentOk(id.child) then Err(EmptySegment)
    else Ok(Join(Parts(id)))
  }

  /** The fields as the source stores them in a binding. */
  function Stripped(id: Identity): Identity {
    Identity(Strip(id.root), Strip(id.node), id.nodeAttempt, Strip(id.attempt), Strip(id.child))
  }

  /** Reads a namespace back; not part of the source. */
  function Parse(ns: string): Option<Identity> {
    ParseParts(Split(ns))
  }

  function ParseParts(parts: seq<string>): Option<Identity> {
    if |parts| != 10 || parts[0] != "roots" || parts[2] != "nodes" || parts[5] != "attempts" || parts[7] != "children" || parts[9] != "workflow" then None
    else
      match (Unquote(parts[1]), Unquote(parts[3]), FromDecimal(parts[4]), Unquote(parts[6]), Unquote(parts[8]))
      case (Some(root), Some(node), Some(n), Some(attempt), Some(child)) => Some(Identity(root, node, n, attempt, child))
      case _ => None
  }

  lemma {:induction false} NoSlashes(id: Identity)
    requires id.nodeAttempt >= 0
    ensures forall i :: 0 <= i < 10 ==> '/' !in Parts(id)[i]
  {
    UnquoteQuote(Strip(id.root));
    UnquoteQuote(Strip(id.node));
    UnquoteQuote(Strip(id.attempt));
    UnquoteQuote(Strip(id.child));
  }

  lemma {:induction false} PartsBack(id: Identity)
    requires id.nodeAttempt >= 0
    ensures ParseParts(Parts(id)) == Some(Stripped(id))
  {
    UnquoteQuote(Strip(id.root));
    UnquoteQuote(Strip(id.node));
    UnquoteQuote(Strip(id.attempt));
    UnquoteQuote(Strip(id.child));
    DecimalBack(id.nodeAttempt);
    ReadParts(Parts(id), Stripped(id));
  }

  lemma {:induction false} ReadParts(parts: seq<string>, id: Identity)
    requires |parts| == 10 && parts[0] == "roots" && parts[2] == "nodes" && parts[5] == "attempts" && parts[7] == "children" && parts[9] == "workflow"
    requires Unquote(parts[1]) == Some(id.root) && Unquote(parts[3]) == Some(id.node) && id.nodeAttempt >= 0
    requires FromDecimal(parts[4]) == Some(id.nodeAttempt) && Unquote(parts[6]) == Some(id.attempt) && Unquote(parts[8]) == Some(id.child)
    ensures ParseParts(parts) == Some(id)
  {
  }

  /** Reading a namespace gives back the stripped fields. */
  lemma {:induction false} ParseNamespace(id: Identity)
    requires Namespace(id).Ok?
    ensures Parse(Namespace(id).value) == Some(Stripped(id))
  {
    NoSlashes(id);
    SplitJoin(Parts(id));
    PartsBack(id);
  }

  /** Two children share a namespace exactly if they have the same identity, stripped. */
  lemma {:induction false} NamespaceInjective(a: Identity, b: Identity)
    requires Namespace(a).Ok? && Namespace(b).Ok?
    ensures Namespace(a) == Namespace(b) <==> Stripped(a) == Stripped(b)
  {
    ParseNamespace(a);
    ParseNamespace(b);
    if Stripped(a) == Stripped(b) { SameParts(a, b); }
  }

  lemma {:induction false} SameParts(a: Identity, b: Identity)
    requires Stripped(a) == Stripped(b) && a.nodeAttempt >= 0
    ensures Parts(a) == Parts(b)
  {
  }

  /** The field has a character that is not white space, and no null character. */
  ghost predicate Usable(field: string) {
    HasText(field) && '\0' !in field
  }

  lemma {:induction false} UsableIff(field: string)
    ensures SegmentOk(field) <==> Usable(field)
  {
    BlankIff(field);
  }

  /** A child has a namespace exactly when its node attempt counts from one and its other fields are usable. */
  lemma {:induction false} NamespaceIff(id: Identity)
    ensures Namespace(id).Ok? <==> id.nodeAttempt >= 1 && Usable(id.root) && Usable(id.node) && Usable(id.attempt) && Usable(id.child)
  {
    UsableIff(id.root);
    UsableIff(id.node);
    UsableIff(id.attempt);
    UsableIff(id.child);
  }

  predicate PlainChar(c: char) {
    'a' <= c <= 'z' || 'A' <= c <= 'Z' || '0' <= c <= '9' || c in "_.-~"
  }

  /** Text of letters, digits and the four marks is not changed by the encoding, and nothing else is in an encoded text
      but percent signs. */
  lemma {:induction false} QuoteKeeps(s: string)
    ensures (forall c :: c in s ==> PlainChar(c)) ==> Quote(s) == s
    ensures forall c :: c in Quote(s) ==> PlainChar(c) || c == '%'
  {
    QuotedChars(Utf8(s));
    if forall c :: c in s ==> PlainChar(c) { PlainQuote(s); }
  }

  lemma {:induction false} QuotedChars(b: Bytes)
    ensures forall c :: c in QuoteBytes(b) ==> PlainChar(c) || c == '%'
    decreases |b|
  {
    if b != [] {
      QuotedChars(b[1..]);
      QuotedByte(b[0]);
    }
  }

  lemma {:induction false} QuotedByte(b: int)
    requires 0 <= b < 256
    ensures forall c :: c in QuoteByte(b) ==> PlainChar(c) || c == '%'
  {
  }

  lemma {:induction false} PlainQuote(s: string)
    requires forall c :: c in s ==> PlainChar(c)
    ensures Quote(s) == s
    decreases |s|
  {
    if s != [] {
      assert PlainChar(s[0]);
      PlainQuote(s[1..]);
      assert Utf8Char(s[0]) == [s[0] as int];
      assert Utf8(s) == [s[0] as int] + Utf8(s[1..]) && Utf8(s)[1..] == Utf8(s[1..]);
      assert QuoteByte(s[0] as int) == [s[0]];
    }
  }
}
