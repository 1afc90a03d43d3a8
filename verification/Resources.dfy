/** Locks derived from Attempts: which exclusive paths of a request overlap paths that are still held. */
module Resources {
  import opened Core
  import opened Text
  import opened Order
  import opened Attempts
  import opened Paths

  /** All paths in canonical form, or the first error. */
  function CanonicalAll(paths: seq<string>): (r: Result<seq<string>, PathError>) {
    if paths == [] then Ok([])
    else
      match Canonical(paths[0])
      case Err(e) => Err(e)
      case Ok(c) =>
        match CanonicalAll(paths[1..])
        case Err(e) => Err(e)
        case Ok(rest) => Ok([c] + rest)
  }

  function Distinct(s: seq<string>): (r: seq<string>)
    ensures forall x :: x in r <==> x in s
    ensures forall i, j :: 0 <= i < j < |r| ==> r[i] != r[j]
  {
    if s == [] then []
    else
      var rest := Distinct(s[1..]);
      if s[0] in rest then rest else [s[0]] + rest
  }

  /** Canonical, deduplicated and sorted (`canonical_resource_paths`). */
  function CanonicalPaths(paths: seq<string>): Result<seq<string>, PathError> {
    match CanonicalAll(paths)
    case Err(e) => Err(e)
    case Ok(all) => Ok(Sort(Distinct(all), LessEq))
  }

  predicate Clash(left: string, right: string) {
    PathsConflict(left, right) == Ok(true)
  }

  /** Some path of one list overlaps some path of the other. */
  predicate AnyConflict(left: seq<string>, right: seq<string>) {
    exists p, q :: p in left && q in right && Clash(p, q)
  }

  function SetsConflict(left: seq<string>, right: seq<string>): Result<bool, PathError> {
    match CanonicalPaths(left)
    case Err(e) => Err(e)
    case Ok(l) =>
      match CanonicalPaths(right)
      case Err(e) => Err(e)
      case Ok(r) => Ok(AnyConflict(l, r))
  }

  datatype Conflict = Conflict(requested: string, held: string, holder: string, retiring: bool)

  predicate IdBefore(a: Attempt, b: Attempt) { LessEq(a.id, b.id) }

  /** The conflicts of one requested path, of one Attempt, and of all Attempts in order. */
  function PathConflicts(a: Attempt, requested: string, held: seq<string>): seq<Conflict> {
    if held == [] then []
    else (if Clash(requested, held[0]) then [Conflict(requested, held[0], a.id, a.lease.retiring)] else [])
         + PathConflicts(a, requested, held[1..])
  }

  function AttemptConflicts(a: Attempt, requested: seq<string>, held: seq<string>): seq<Conflict> {
    if requested == [] then [] else PathConflicts(a, requested[0], held) + AttemptConflicts(a, requested[1..], held)
  }

  function ConflictsFrom(requested: seq<string>, attempts: seq<Attempt>): Result<seq<Conflict>, PathError> {
    if attempts == [] then Ok([])
    else if !Holds(attempts[0]) then ConflictsFrom(requested, attempts[1..])
    else
      match CanonicalPaths(attempts[0].lease.resourceKeys)
      case Err(e) => Err(e)
      case Ok(held) =>
        match ConflictsFrom(requested, attempts[1..])
        case Err(e) => Err(e)
        case Ok(rest) => Ok(AttemptConflicts(attempts[0], requested, held) + rest)
  }

  function ExclusiveConflicts(paths: seq<string>, attempts: seq<Attempt>): Result<seq<Conflict>, PathError> {
    match CanonicalPaths(paths)
    case Err(e) => Err(e)
    case Ok(requested) => ConflictsFrom(requested, Sort(attempts, IdBefore))
  }

  /** The source's nested loops. */
  method ExclusivePathConflicts(paths: seq<string>, attempts: seq<Attempt>) returns (result: Result<seq<Conflict>, PathError>)
    ensures result == ExclusiveConflicts(paths, attempts)
  {
    var canonical := CanonicalPaths(paths);
    if canonical.Err? { return Err(canonical.error); }
    result := ConflictsOfAttempts(canonical.value, Sort(attempts, IdBefore));
  }

  method ConflictsOfAttempts(requested: seq<string>, attempts: seq<Attempt>) returns (result: Result<seq<Conflict>, PathError>)
    ensures result == ConflictsFrom(requested, attempts)
  {
    var conflicts: seq<Conflict> := [];
    AfterBoth([], [], ConflictsFrom(requested, attempts));
    assert attempts[0..] == attempts;
    for i := 0 to |attempts|
      invariant ConflictsFrom(requested, attempts) == After(conflicts, ConflictsFrom(requested, attempts[i..]))
    {
      var a := attempts[i];
      assert attempts[i..][0] == a && attempts[i..][1..] == attempts[i + 1..];
      if Holds(a) {
        var keys := CanonicalPaths(a.lease.resourceKeys);
        if keys.Err? { return Err(keys.error); }
        var more := ConflictsOfAttempt(a, requested, keys.value);
        AfterBoth(conflicts, more, ConflictsFrom(requested, attempts[i + 1..]));
        conflicts := conflicts + more;
      }
    }
    assert attempts[|attempts|..] == [] && conflicts + [] == conflicts;
    return Ok(conflicts);
  }

  ghost function After(found: seq<Conflict>, rest: Result<seq<Conflict>, PathError>): Result<seq<Conflict>, PathError> {
    match rest case Err(e) => Err(e) case Ok(more) => Ok(found + more)
  }

  lemma {:induction false} AfterBoth(a: seq<Conflict>, b: seq<Conflict>, rest: Result<seq<Conflict>, PathError>)
    ensures After(a, After(b, rest)) == After(a + b, rest) && After([], rest) == rest
  {
    if rest.Ok? {
      assert a + (b + rest.value) == a + b + rest.value;
      assert [] + rest.value == rest.value;
    }
  }

  method ConflictsOfAttempt(a: Attempt, requested: seq<string>, held: seq<string>) returns (conflicts: seq<Conflict>)
    ensures conflicts == AttemptConflicts(a, requested, held)
  {
    conflicts := [];
    for j := 0 to |requested|
      invariant conflicts + AttemptConflicts(a, requested[j..], held) == AttemptConflicts(a, requested, held)
    {
      assert requested[j..][0] == requested[j] && requested[j..][1..] == requested[j + 1..];
      var more := ConflictsOfPath(a, requested[j], held);
      Associate(conflicts, more, AttemptConflicts(a, requested[j + 1..], held));
      conflicts := conflicts + more;
    }
    assert requested[|requested|..] == [];
  }

  lemma {:induction false} Associate(a: seq<Conflict>, b: seq<Conflict>, c: seq<Conflict>)
    ensures a + (b + c) == (a + b) + c
  {
  }

  method ConflictsOfPath(a: Attempt, requested: string, held: seq<string>) returns (conflicts: seq<Conflict>)
    ensures conflicts == PathConflicts(a, requested, held)
  {
    conflicts := [];
    for k := 0 to |held|
      invariant conflicts + PathConflicts(a, requested, held[k..]) == PathConflicts(a, requested, held)
    {
      assert held[k..][0] == held[k] && held[k..][1..] == held[k + 1..];
      var found := if Clash(requested, held[k]) then [Conflict(requested, held[k], a.id, a.lease.retiring)] else [];
      Associate(conflicts, found, PathConflicts(a, requested, held[k + 1..]));
      conflicts := conflicts + found;
    }
    assert held[|held|..] == [];
  }

  // ---------------------------------------------------------------- what the lists contain

  lemma {:induction false} StringOrder()
    ensures Preorder(LessEq)
  {
    forall a: string, b: string ensures Comparable(LessEq, a, b) { LessEqTotal(a, b); }
    forall a: string, b: string, c: string ensures Transits(LessEq, a, b, c) {
      if LessEq(a, b) && LessEq(b, c) { LessEqTransitive(a, b, c); }
    }
  }

  lemma {:induction false} StringsApart(s: seq<string>)
    ensures Separates(s, LessEq)
  {
    forall a, b | a in s && b in s ensures Apart(LessEq, a, b) { LessEqTotal(a, b); }
  }

  lemma {:induction false} CanonicalAllMeans(paths: seq<string>)
    ensures CanonicalAll(paths).Ok? <==> forall p :: p in paths ==> Canonical(p).Ok?
    ensures CanonicalAll(paths).Ok? ==>
      forall c :: c in CanonicalAll(paths).value <==> exists p :: p in paths && Canonical(p) == Ok(c)
    decreases |paths|
  {
    if paths != [] {
      assert paths == [paths[0]] + paths[1..];
      CanonicalAllMeans(paths[1..]);
    }
  }

  /** The list holds exactly the canonical forms of the paths. */
  lemma {:induction false} CanonicalPathsMeans(paths: seq<string>)
    ensures CanonicalPaths(paths).Ok? <==> forall p :: p in paths ==> Canonical(p).Ok?
    ensures CanonicalPaths(paths).Ok? ==>
      && Sorted(CanonicalPaths(paths).value, LessEq)
      && forall c :: c in CanonicalPaths(paths).value <==> exists p :: p in paths && Canonical(p) == Ok(c)
  {
    CanonicalAllMeans(paths);
    if CanonicalAll(paths).Ok? {
      StringOrder();
      SortSorts(Distinct(CanonicalAll(paths).value), LessEq);
    }
  }

  // ---------------------------------------------------------------- comparing lists of paths

  ghost predicate Absolute(paths: seq<string>) {
    forall p :: p in paths ==> Canonical(p).Ok?
  }

  /** The paths overlap after canonicalising them twice: the comparison of lists canonicalises the lists, and then
      the comparison of two paths canonicalises again. */
  predicate OverlapTwice(p: string, q: string) {
    Overlap(Canon(Canon(p)), Canon(Canon(q)))
  }

  ghost predicate MeetTwice(left: seq<string>, right: seq<string>) {
    exists p, q :: p in left && q in right && OverlapTwice(p, q)
  }

  lemma {:induction false} ClashOfCanonical(p: string, q: string)
    requires Canonical(p).Ok? && Canonical(q).Ok?
    ensures Clash(Canon(p), Canon(q)) <==> OverlapTwice(p, q)
  {
    CanonicalAgain(p);
    CanonicalAgain(q);
  }

  lemma {:induction false} AnyConflictTwice(left: seq<string>, right: seq<string>, l: seq<string>, r: seq<string>)
    requires CanonicalPaths(left) == Ok(l) && CanonicalPaths(right) == Ok(r)
    ensures AnyConflict(l, r) <==> MeetTwice(left, right)
  {
    CanonicalPathsMeans(left);
    CanonicalPathsMeans(right);
    if c, d :| c in l && d in r && Clash(c, d) {
      var p :| p in left && Canonical(p) == Ok(c);
      var q :| q in right && Canonical(q) == Ok(d);
      ClashOfCanonical(p, q);
    }
    if p, q :| p in left && q in right && OverlapTwice(p, q) {
      ClashOfCanonical(p, q);
      assert Canon(p) in l && Canon(q) in r;
    }
  }

  /** The comparison of lists, on every input: it raises exactly if some path is not absolute, and otherwise says
      whether two of the paths overlap after canonicalising them twice. */
  lemma {:induction false} SetsConflictExact(left: seq<string>, right: seq<string>)
    ensures SetsConflict(left, right).Ok? <==> Absolute(left) && Absolute(right)
    ensures SetsConflict(left, right).Ok? ==> SetsConflict(left, right) == Ok(MeetTwice(left, right))
  {
    CanonicalPathsMeans(left);
    CanonicalPathsMeans(right);
    if SetsConflict(left, right).Ok? {
      AnyConflictTwice(left, right, CanonicalPaths(left).value, CanonicalPaths(right).value);
    }
  }

  /** The canonical form does not end in white space: `Paths.IdempotentIff` says that it is then canonical for
      good, and that this can be read off the last segment. */
  predicate Settles(p: string) {
    Canonical(p).Ok? && !IsSpace(Canon(p)[|Canon(p)| - 1])
  }

  predicate AllSettle(paths: seq<string>) {
    forall p :: p in paths ==> Settles(p)
  }

  lemma {:induction false} SettledTwice(p: string, q: string)
    requires Settles(p) && Settles(q)
    ensures OverlapTwice(p, q) <==> Clash(p, q)
  {
    IdempotentIff(p);
    IdempotentIff(q);
  }

  lemma {:induction false} MeetSettled(left: seq<string>, right: seq<string>)
    requires AllSettle(left) && AllSettle(right)
    ensures MeetTwice(left, right) <==> AnyConflict(left, right)
  {
    if p, q :| p in left && q in right && OverlapTwice(p, q) { SettledTwice(p, q); }
    if p, q :| p in left && q in right && Clash(p, q) { SettledTwice(p, q); }
  }

  /** Lists of paths whose canonical forms do not end in white space are in conflict exactly when some path of
      one is in conflict with some path of the other. */
  lemma {:induction false} SetsConflictMeans(left: seq<string>, right: seq<string>)
    requires AllSettle(left) && AllSettle(right)
    ensures SetsConflict(left, right) == Ok(AnyConflict(left, right))
  {
    SetsConflictExact(left, right);
    MeetSettled(left, right);
  }

  // ---------------------------------------------------------------- which Attempts are in conflict

  ghost predicate HasHolder(conflicts: seq<Conflict>, id: string) {
    exists c :: c in conflicts && c.holder == id
  }

  ghost predicate HeldBy(conflicts: seq<Conflict>, a: Attempt) {
    forall c :: c in conflicts ==> c.holder == a.id
  }

  ghost predicate ClashesWith(p: string, held: seq<string>) {
    exists q :: q in held && Clash(p, q)
  }

  lemma {:induction false} ClashesTail(p: string, held: seq<string>)
    requires held != []
    ensures ClashesWith(p, held) <==> Clash(p, held[0]) || ClashesWith(p, held[1..])
  {
  }

  lemma {:induction false} PathConflictHolder(a: Attempt, requested: string, held: seq<string>)
    ensures HeldBy(PathConflicts(a, requested, held), a)
    ensures PathConflicts(a, requested, held) != [] <==> ClashesWith(requested, held)
    decreases |held|
  {
    if held != [] {
      PathConflictHolder(a, requested, held[1..]);
      ClashesTail(requested, held);
    }
  }

  lemma {:induction false} AttemptConflictHolder(a: Attempt, requested: seq<string>, held: seq<string>)
    ensures HeldBy(AttemptConflicts(a, requested, held), a)
    ensures AttemptConflicts(a, requested, held) != [] <==> AnyConflict(requested, held)
    decreases |requested|
  {
    if requested != [] {
      PathConflictHolder(a, requested[0], held);
      AttemptConflictHolder(a, requested[1..], held);
      AnyConflictHead(requested, held);
    }
  }

  lemma {:induction false} AnyConflictHead(requested: seq<string>, held: seq<string>)
    requires requested != []
    ensures AnyConflict(requested, held) <==> ClashesWith(requested[0], held) || AnyConflict(requested[1..], held)
  {
  }

  /** This Attempt holds a path that a requested one overlaps. */
  ghost predicate Blocks(requested: seq<string>, a: Attempt) {
    Holds(a) && CanonicalPaths(a.lease.resourceKeys).Ok? && AnyConflict(requested, CanonicalPaths(a.lease.resourceKeys).value)
  }

  /** A holding Attempt's keys are paths. */
  ghost predicate KeyOk(a: Attempt) {
    Holds(a) ==> CanonicalPaths(a.lease.resourceKeys).Ok?
  }

  ghost predicate KeysOk(attempts: seq<Attempt>) {
    forall a :: a in attempts ==> KeyOk(a)
  }

  ghost predicate BlockedBy(requested: seq<string>, attempts: seq<Attempt>, id: string) {
    exists a :: a in attempts && a.id == id && Blocks(requested, a)
  }

  lemma {:induction false} KeysOkTail(attempts: seq<Attempt>)
    requires attempts != []
    ensures KeysOk(attempts) <==> KeyOk(attempts[0]) && KeysOk(attempts[1..])
  {
  }

  lemma {:induction false} ConflictsOk(requested: seq<string>, attempts: seq<Attempt>)
    ensures ConflictsFrom(requested, attempts).Ok? <==> KeysOk(attempts)
    decreases |attempts|
  {
    if attempts != [] {
      ConflictsOk(requested, attempts[1..]);
      KeysOkTail(attempts);
    }
  }

  lemma {:induction false} HoldersBlock(requested: seq<string>, attempts: seq<Attempt>, id: string)
    requires ConflictsFrom(requested, attempts).Ok?
    ensures HasHolder(ConflictsFrom(requested, attempts).value, id) <==> BlockedBy(requested, attempts, id)
    decreases |attempts|
  {
    if attempts != [] {
      var a, rest := attempts[0], attempts[1..];
      assert attempts == [a] + rest;
      HoldersBlock(requested, rest, id);
      if Holds(a) {
        var mine := AttemptConflicts(a, requested, CanonicalPaths(a.lease.resourceKeys).value);
        AttemptConflictHolder(a, requested, CanonicalPaths(a.lease.resourceKeys).value);
        HolderOfBoth(a, mine, ConflictsFrom(requested, rest).value, id);
      }
      BlockedByHead(requested, attempts, id);
    }
  }

  lemma {:induction false} HolderOfBoth(a: Attempt, mine: seq<Conflict>, later: seq<Conflict>, id: string)
    requires HeldBy(mine, a)
    ensures HasHolder(mine + later, id) <==> (mine != [] && a.id == id) || HasHolder(later, id)
  {
    if mine != [] { assert mine[0] in mine && mine[0] in mine + later; }
    if c :| c in mine + later && c.holder == id { if c in mine { assert c.holder == a.id; } }
    if c :| c in later && c.holder == id { assert c in mine + later; }
  }

  lemma {:induction false} BlockedByHead(requested: seq<string>, attempts: seq<Attempt>, id: string)
    requires attempts != []
    ensures BlockedBy(requested, attempts, id) <==> (attempts[0].id == id && Blocks(requested, attempts[0])) || BlockedBy(requested, attempts[1..], id)
  {
  }

  lemma {:induction false} AttemptOrder()
    ensures Preorder(IdBefore)
  {
    forall a: Attempt, b: Attempt ensures Comparable(IdBefore, a, b) { LessEqTotal(a.id, b.id); }
    forall a: Attempt, b: Attempt, c: Attempt ensures Transits(IdBefore, a, b, c) {
      if LessEq(a.id, b.id) && LessEq(b.id, c.id) { LessEqTransitive(a.id, b.id, c.id); }
    }
  }

  /** The Attempt holds a path, in canonical form `q`, that the requested path `p` conflicts with. */
  ghost predicate InTheWay(a: Attempt, p: string, q: string) {
    Holds(a) && CanonicalPaths(a.lease.resourceKeys).Ok? && q in CanonicalPaths(a.lease.resourceKeys).value && PathsConflict(p, q) == Ok(true)
  }

  ghost predicate Reports(c: Conflict, a: Attempt, p: string, q: string) {
    InTheWay(a, p, q) && c == Conflict(p, q, a.id, a.lease.retiring)
  }

  lemma {:induction false} PathReports(a: Attempt, p: string, held: seq<string>, c: Conflict)
    ensures c in PathConflicts(a, p, held) <==> c.held in held && Clash(p, c.held) && c == Conflict(p, c.held, a.id, a.lease.retiring)
    decreases |held|
  {
    if held != [] {
      assert held == [held[0]] + held[1..];
      PathReports(a, p, held[1..], c);
    }
  }

  lemma {:induction false} AttemptReports(a: Attempt, requested: seq<string>, held: seq<string>, c: Conflict)
    ensures c in AttemptConflicts(a, requested, held) <==>
      c.requested in requested && c.held in held && Clash(c.requested, c.held) && c == Conflict(c.requested, c.held, a.id, a.lease.retiring)
    decreases |requested|
  {
    if requested != [] {
      assert requested == [requested[0]] + requested[1..];
      PathReports(a, requested[0], held, c);
      AttemptReports(a, requested[1..], held, c);
    }
  }

  ghost predicate ReportedBy(requested: seq<string>, attempts: seq<Attempt>, c: Conflict) {
    exists a :: a in attempts && c.requested in requested && Reports(c, a, c.requested, c.held)
  }

  lemma {:induction false} FromReports(requested: seq<string>, attempts: seq<Attempt>, c: Conflict)
    requires ConflictsFrom(requested, attempts).Ok?
    ensures c in ConflictsFrom(requested, attempts).value <==> ReportedBy(requested, attempts, c)
    decreases |attempts|
  {
    if attempts != [] {
      var a, rest := attempts[0], attempts[1..];
      assert attempts == [a] + rest;
      FromReports(requested, rest, c);
      if Holds(a) { AttemptReports(a, requested, CanonicalPaths(a.lease.resourceKeys).value, c); }
      assert ReportedBy(requested, attempts, c) <==> (c.requested in requested && Reports(c, a, c.requested, c.held)) || ReportedBy(requested, rest, c);
    }
  }

  /** Every conflict between a requested path and a held one is reported, with its holder and whether that is
      retiring, and nothing else is. */
  lemma {:induction false} ConflictsExact(paths: seq<string>, attempts: seq<Attempt>, c: Conflict)
    requires ExclusiveConflicts(paths, attempts).Ok?
    ensures CanonicalPaths(paths).Ok?
    ensures c in ExclusiveConflicts(paths, attempts).value <==>
      exists a :: a in attempts && c.requested in CanonicalPaths(paths).value && InTheWay(a, c.requested, c.held)
                  && c.holder == a.id && c.retiring == a.lease.retiring
  {
    var requested, sorted := CanonicalPaths(paths).value, Sort(attempts, IdBefore);
    AttemptOrder();
    SortSorts(attempts, IdBefore);
    FromReports(requested, sorted, c);
    if a :| a in attempts && c.requested in requested && InTheWay(a, c.requested, c.held) && c.holder == a.id && c.retiring == a.lease.retiring {
      assert a in sorted && Reports(c, a, c.requested, c.held);
    }
  }

  /** Exactly the Attempts that hold an overlapping path are reported as holders. */
  lemma {:induction false} ExclusiveConflictsMeans(paths: seq<string>, attempts: seq<Attempt>, id: string)
    requires CanonicalPaths(paths).Ok?
    ensures ExclusiveConflicts(paths, attempts).Ok? <==> KeysOk(attempts)
    ensures ExclusiveConflicts(paths, attempts).Ok? ==>
      (HasHolder(ExclusiveConflicts(paths, attempts).value, id) <==> BlockedBy(CanonicalPaths(paths).value, attempts, id))
  {
    var sorted := Sort(attempts, IdBefore);
    AttemptOrder();
    SortSorts(attempts, IdBefore);
    ConflictsOk(CanonicalPaths(paths).value, sorted);
    assert KeysOk(sorted) <==> KeysOk(attempts);
    if KeysOk(attempts) { HoldersBlock(CanonicalPaths(paths).value, sorted, id); }
  }
}
