// The write-scope language (crates/crony-domain/src/lib.rs): a scope is `**`, a literal
// repository path, or a directory P followed by a slash and `**`; inclusion between scopes is
// decided on the text.
module WriteScope {
  import opened Prelude
  import opened RustStr

  const ANY := "**"
  const BELOW := "/" + ANY
  const MAX_PATH_BYTES: nat := 500

  // `value.split('/')`.
  function Split(s: string): (r: seq<string>)
    ensures r != []
  {
    if s == "" then [""]
    else
      var rest := Split(s[1..]);
      if s[0] == '/' then [""] + rest else [[s[0]] + rest[0]] + rest[1..]
  }

  predicate ContainsDoubleSlash(s: string) {
    exists i :: 0 <= i < |s| - 1 && s[i] == '/' && s[i + 1] == '/'
  }

  predicate RepositoryRelativePathIsValid(value: string) {
    && value != ""
    && ByteLen(value) <= MAX_PATH_BYTES
    && value == Trim(value)
    && !("/" <= value)
    && !("\\" <= value)
    && '\\' !in value
    && ':' !in value
    && !ContainsDoubleSlash(value)
    && (forall c :: c in value ==> !IsControl(c))
    && (forall c :: c in Split(value) ==> c != "" && c != "." && c != "..")
  }

  predicate WriteScopeIsValid(value: string) {
    if value == ANY then true
    else
      var path := StripSuffix(value, BELOW).UnwrapOr(value);
      && RepositoryRelativePathIsValid(path)
      && (forall c :: c in path ==> c !in "*?[]")
  }

  predicate WriteScopeAllowsPath(scope: string, path: string) {
    if scope == ANY || scope == path then true
    else match StripSuffix(scope, BELOW) {
      case None => false
      case Some(prefix) =>
        path == prefix || match StripPrefix(path, prefix) {
          case None => false
          case Some(suffix) => "/" <= suffix
        }
    }
  }

  predicate WriteScopeIsSubset(requested: string, allowed: string) {
    if !WriteScopeIsValid(requested) || !WriteScopeIsValid(allowed) then false
    else if requested == ANY then allowed == ANY
    else match StripSuffix(requested, BELOW) {
      case Some(prefix) =>
        && (allowed == ANY || EndsWith(allowed, BELOW))
        && WriteScopeAllowsPath(allowed, prefix)
      case None => WriteScopeAllowsPath(allowed, requested)
    }
  }

  // -------------------------------------------------------------------------
  // A directory scope allows exactly the paths below the directory, by component
  // -------------------------------------------------------------------------

  function Join(parts: seq<string>): string
    requires parts != []
  {
    if |parts| == 1 then parts[0] else parts[0] + "/" + Join(parts[1..])
  }

  lemma {:induction false} JoinSplit(s: string)
    ensures Join(Split(s)) == s
  {
    if s != "" {
      JoinSplit(s[1..]);
      var rest := Split(s[1..]);
      assert s == [s[0]] + s[1..];
      if s[0] == '/' {
        JoinConsEmpty(rest);
      } else {
        JoinConsChar(s[0], rest);
      }
    }
  }

  lemma JoinConsEmpty(rest: seq<string>)
    requires rest != []
    ensures Join([""] + rest) == "/" + Join(rest)
  {
    assert ([""] + rest)[1..] == rest;
  }

  lemma JoinConsChar(c: char, rest: seq<string>)
    requires rest != []
    ensures Join([[c] + rest[0]] + rest[1..]) == [c] + Join(rest)
  {
    var parts := [[c] + rest[0]] + rest[1..];
    if |rest| > 1 {
      assert parts[1..] == rest[1..];
      assert [c] + rest[0] + "/" + Join(rest[1..]) == [c] + (rest[0] + "/" + Join(rest[1..]));
    }
  }

  // Splitting distributes over a joining slash.
  lemma {:induction false} SplitAtSlash(a: string, b: string)
    ensures Split(a + "/" + b) == Split(a) + Split(b)
  {
    if a == "" {
      assert a + "/" + b == ['/'] + b;
      SplitCons('/', b);
    } else {
      var rest := a[1..];
      SplitAtSlash(rest, b);
      assert a == [a[0]] + rest;
      assert a + "/" + b == [a[0]] + (rest + "/" + b);
      SplitCons(a[0], rest);
      SplitCons(a[0], rest + "/" + b);
      PrependChar(a[0], Split(rest), Split(b));
    }
  }

  lemma PrependChar(c: char, rest: seq<string>, tail: seq<string>)
    requires rest != []
    ensures [[c] + (rest + tail)[0]] + (rest + tail)[1..] == ([[c] + rest[0]] + rest[1..]) + tail
    ensures [""] + (rest + tail) == ([""] + rest) + tail
  {
    assert (rest + tail)[1..] == rest[1..] + tail;
  }

  lemma SplitCons(c: char, s: string)
    ensures Split([c] + s) == if c == '/' then [""] + Split(s) else [[c] + Split(s)[0]] + Split(s)[1..]
  {
    assert ([c] + s)[1..] == s;
  }

  lemma JoinAppend(a: seq<string>, b: seq<string>)
    requires a != [] && b != []
    ensures Join(a + b) == Join(a) + "/" + Join(b)
  {
    if |a| == 1 {
      assert (a + b)[1..] == b;
    } else {
      assert (a + b)[1..] == a[1..] + b;
      JoinAppend(a[1..], b);
      assert a[0] + "/" + (Join(a[1..]) + "/" + Join(b)) == (a[0] + "/" + Join(a[1..])) + "/" + Join(b);
    }
  }

  lemma BelowIsComponentPrefix(directory: string, path: string)
    requires directory + "/" <= path
    ensures Split(directory) <= Split(path)
  {
    var rest := path[|directory| + 1..];
    assert path == directory + "/" + rest;
    SplitAtSlash(directory, rest);
  }

  // For every directory and every path: the directory scope allows exactly what has the
  // components of the directory as a prefix, so `src` never covers `src2/x`.
  lemma DirectoryScopeIsComponentPrefix(directory: string, path: string)
    ensures WriteScopeAllowsPath(directory + BELOW, path) <==> Split(directory) <= Split(path)
  {
    DirectoryAllows(directory, path);
    if Split(directory) <= Split(path) {
      ComponentPrefixIsBelow(directory, path);
    }
    if directory + "/" <= path {
      BelowIsComponentPrefix(directory, path);
    }
  }

  lemma JoinBelow(d: seq<string>, tail: seq<string>)
    requires d != []
    ensures Below(Join(d + tail), Join(d))
  {
    if tail == [] {
      assert d + tail == d;
    } else {
      JoinAppend(d, tail);
    }
  }

  lemma ComponentPrefixIsBelow(directory: string, path: string)
    requires Split(directory) <= Split(path)
    ensures Below(path, directory)
  {
    JoinSplit(path);
    JoinSplit(directory);
    JoinBelow(Split(directory), Split(path)[|Split(directory)|..]);
    assert Split(directory) + Split(path)[|Split(directory)|..] == Split(path);
  }

  // `path` is `directory` or lies below it, as texts.
  predicate Below(path: string, directory: string) {
    path == directory || directory + "/" <= path
  }

  // What a directory scope allows, as a text: the directory or something below it.
  lemma DirectoryAllows(q: string, p: string)
    ensures WriteScopeAllowsPath(q + BELOW, p) <==> Below(p, q)
  {
    var scope := q + BELOW;
    assert |scope| >= 3;
    assert StripSuffix(scope, BELOW) == Some(q);
    if q + "/" <= p {
      var suffix := p[|q|..];
      assert p == q + suffix && suffix[0] == p[|q|] == (q + "/")[|q|];
      assert StripPrefix(p, q) == Some(suffix);
    }
    if p == scope {
      assert scope[..|q| + 1] == q + "/";
    } else if StripPrefix(p, q).Some? && "/" <= StripPrefix(p, q).value {
      var suffix := StripPrefix(p, q).value;
      assert p == q + suffix && suffix[0] == '/';
      assert p[..|q| + 1] == q + "/";
    }
  }

  lemma BelowIsTransitive(p: string, q: string, r: string)
    requires Below(p, q) && Below(q, r)
    ensures Below(p, r)
  {
    if p != q && q != r {
      var q', r' := q + "/", r + "/";
      assert r' <= q && q' <= p && q <= q';
      assert p[..|r'|] == p[..|q'|][..|r'|] == q[..|r'|] == r';
    }
  }

  // -------------------------------------------------------------------------
  // Inclusion is a partial order
  // -------------------------------------------------------------------------

  // The three shapes of a valid scope.
  datatype Scope = Everything | Literal(path: string) | Directory(path: string)

  function Parse(scope: string): Scope
    requires WriteScopeIsValid(scope)
  {
    if scope == ANY then Everything
    else match StripSuffix(scope, BELOW) {
      case Some(p) => Directory(p)
      case None => Literal(scope)
    }
  }

  function Unparse(scope: Scope): string {
    match scope
    case Everything => ANY
    case Literal(p) => p
    case Directory(p) => p + BELOW
  }

  lemma ParseIsFaithful(scope: string)
    requires WriteScopeIsValid(scope)
    ensures Unparse(Parse(scope)) == scope
    ensures Parse(scope) != Everything ==>
              RepositoryRelativePathIsValid(Parse(scope).path) && '*' !in Parse(scope).path
  {
  }

  // Inclusion by shape: the path texts decide, and a directory never fits a literal.
  predicate Within(r: Scope, a: Scope) {
    match (r, a)
    case (_, Everything) => true
    case (Everything, _) => false
    case (Literal(p), Literal(q)) => p == q
    case (Directory(p), Literal(q)) => false
    case (_, Directory(q)) => Below(r.path, q)
  }

  lemma SubsetByShape(requested: string, allowed: string)
    requires WriteScopeIsValid(requested) && WriteScopeIsValid(allowed)
    ensures WriteScopeIsSubset(requested, allowed) <==> Within(Parse(requested), Parse(allowed))
  {
    ParseIsFaithful(requested);
    ParseIsFaithful(allowed);
    var r, a := Parse(requested), Parse(allowed);
    if r != Everything && a != Everything {
      var p := r.path;
      if a.Directory? {
        DirectoryAllows(a.path, p);
        assert '*' in allowed;
      }
    }
  }

  lemma SubsetIsReflexive(scope: string)
    ensures WriteScopeIsSubset(scope, scope) <==> WriteScopeIsValid(scope)
  {
    if WriteScopeIsValid(scope) {
      SubsetByShape(scope, scope);
    }
  }

  lemma SubsetIsAntisymmetric(a: string, b: string)
    requires WriteScopeIsSubset(a, b) && WriteScopeIsSubset(b, a)
    ensures a == b
  {
    SubsetByShape(a, b);
    SubsetByShape(b, a);
    ParseIsFaithful(a);
    ParseIsFaithful(b);
    assert Parse(a) == Parse(b);
  }

  lemma SubsetIsTransitive(a: string, b: string, c: string)
    requires WriteScopeIsSubset(a, b) && WriteScopeIsSubset(b, c)
    ensures WriteScopeIsSubset(a, c)
  {
    SubsetByShape(a, b);
    SubsetByShape(b, c);
    SubsetByShape(a, c);
    if Parse(b).Directory? && Parse(c).Directory? {
      BelowIsTransitive(Parse(a).path, Parse(b).path, Parse(c).path);
    }
  }

  // -------------------------------------------------------------------------
  // Inclusion is set inclusion
  // -------------------------------------------------------------------------

  // What a valid scope allows: the whole repository, the path, or the directory's contents.
  predicate Denotes(scope: Scope, path: string) {
    match scope
    case Everything => true
    case Literal(p) => path == p
    case Directory(p) => Below(path, p)
  }

  lemma AllowsByShape(scope: string, path: string)
    requires WriteScopeIsValid(scope)
    ensures WriteScopeAllowsPath(scope, path) <==> Denotes(Parse(scope), path)
  {
    ParseIsFaithful(scope);
    if Parse(scope).Directory? {
      DirectoryAllows(Parse(scope).path, path);
    }
  }

  // Sound for every path, valid or not: what the requested scope allows, the larger one does.
  lemma SubsetIsSound(requested: string, allowed: string, path: string)
    requires WriteScopeIsSubset(requested, allowed) && WriteScopeAllowsPath(requested, path)
    ensures WriteScopeAllowsPath(allowed, path)
  {
    SubsetByShape(requested, allowed);
    AllowsByShape(requested, path);
    AllowsByShape(allowed, path);
    var r, a := Parse(requested), Parse(allowed);
    if r.Directory? && a.Directory? {
      BelowIsTransitive(path, r.path, a.path);
    }
  }

  // Every valid path the requested scope allows is allowed by the other one.
  ghost predicate Included(requested: string, allowed: string) {
    forall path :: RepositoryRelativePathIsValid(path) && WriteScopeAllowsPath(requested, path)
                   ==> WriteScopeAllowsPath(allowed, path)
  }

  // The one place where the textual test is stricter than inclusion: a directory request
  // against its own directory name as a literal, when the path cap leaves no room below it.
  predicate NoRoomBelow(requested: string, allowed: string) {
    requested == allowed + BELOW && MAX_PATH_BYTES < ByteLen(allowed) + 2
  }

  lemma SplitHasNoSlash(s: string)
    ensures forall c :: c in Split(s) ==> '/' !in c
    ensures '/' !in s ==> Split(s) == [s]
  {
    if s != "" {
      SplitHasNoSlash(s[1..]);
      if '/' !in s {
        assert '/' !in s[1..];
        assert s == [s[0]] + s[1..];
      }
    }
  }

  // A path that nothing but its own text or `**` names.
  lemma OneLetterPathIsValid(c: char)
    requires 'a' <= c <= 'z'
    ensures RepositoryRelativePathIsValid([c])
  {
    SplitHasNoSlash([c]);
    TrimIsNormalForm([c]);
    assert [c][1..] == "";
    assert ByteLen([c]) == Utf8Len(c) + ByteLen("");
  }

  lemma ChildPathIsValid(p: string)
    requires RepositoryRelativePathIsValid(p) && ByteLen(p) + 2 <= MAX_PATH_BYTES
    ensures RepositoryRelativePathIsValid(p + "/x")
  {
    var q := p + "/x";
    ByteLenAppend(p, "/x");
    assert "/x"[1..] == "x" && "x"[1..] == "";
    assert ByteLen("/x") == 2;
    TrimIsNormalForm(p);
    TrimIsNormalForm(q);
    assert q == p + "/" + "x";
    SplitAtSlash(p, "x");
    SplitHasNoSlash("x");
    assert Split(q) == Split(p) + ["x"];
    LastIsNotSlash(p);
    forall i | 0 <= i < |q| - 1 && q[i] == '/'
      ensures q[i + 1] != '/'
    {
      if i + 1 < |p| {
        assert p[i] == '/' && p[i + 1] == q[i + 1];
      }
    }
    forall c | c in q
      ensures c != '\\' && c != ':' && !IsControl(c)
    {
      assert c in p || c == '/' || c == 'x';
    }
  }

  lemma TrailingSlashLeavesEmptyPart(front: string)
    ensures "" in Split(front + "/")
  {
    SplitAtSlash(front, "");
    assert front + "/" + "" == front + "/";
    assert (Split(front) + [""])[|Split(front)|] == "";
  }

  lemma LastIsNotSlash(p: string)
    requires p != "" && forall c :: c in Split(p) ==> c != ""
    ensures p[|p| - 1] != '/'
  {
    if p[|p| - 1] == '/' {
      assert p == p[..|p| - 1] + "/";
      TrailingSlashLeavesEmptyPart(p[..|p| - 1]);
    }
  }

  lemma PathsBelowAreLonger(p: string, path: string)
    requires RepositoryRelativePathIsValid(path) && p + "/" <= path
    ensures ByteLen(p) + 2 <= ByteLen(path)
  {
    LastIsNotSlash(path);
    var tail := path[|p| + 1..];
    assert path == p + ("/" + tail);
    assert tail != "";
    ByteLenAppend(p, "/" + tail);
    ByteLenAtLeastLength("/" + tail);
  }

  // The decision procedure decides inclusion over valid paths, but for the one family where
  // the cap leaves no path below the literal.
  lemma SubsetDecidesInclusion(requested: string, allowed: string)
    requires WriteScopeIsValid(requested) && WriteScopeIsValid(allowed)
    ensures Included(requested, allowed) <==>
            WriteScopeIsSubset(requested, allowed) || NoRoomBelow(requested, allowed)
  {
    if WriteScopeIsSubset(requested, allowed) {
      forall path | WriteScopeAllowsPath(requested, path)
        ensures WriteScopeAllowsPath(allowed, path)
      {
        SubsetIsSound(requested, allowed, path);
      }
    } else if NoRoomBelow(requested, allowed) {
      forall path | RepositoryRelativePathIsValid(path) && WriteScopeAllowsPath(requested, path)
        ensures path == allowed
      {
        DirectoryAllows(allowed, path);
        if path != allowed {
          PathsBelowAreLonger(allowed, path);
        }
      }
    } else {
      var path := Witness(requested, allowed);
    }
  }

  function Letters(n: nat): string {
    seq(n, i => 'a')
  }

  lemma LettersArePaths(n: nat)
    requires 0 < n <= MAX_PATH_BYTES
    ensures ByteLen(Letters(n)) == n && RepositoryRelativePathIsValid(Letters(n))
  {
    var p := Letters(n);
    ByteLenOfAscii(p);
    SplitHasNoSlash(p);
    TrimIsNormalForm(p);
    assert forall c :: c in p ==> c == 'a';
  }

  // The family is not empty: 499 letters leave one byte, and no path, below the cap.
  lemma NoRoomIsReached()
    ensures var p := Letters(499);
            && WriteScopeIsValid(p) && WriteScopeIsValid(p + BELOW) && NoRoomBelow(p + BELOW, p)
            && Included(p + BELOW, p) && !WriteScopeIsSubset(p + BELOW, p)
  {
    var p := Letters(499);
    LettersArePaths(499);
    assert (p + BELOW)[|p|..] == BELOW && (p + BELOW)[..|p|] == p;
    assert p[498] == 'a';
    assert StripSuffix(p, BELOW).None?;
    assert StripSuffix(p + BELOW, BELOW) == Some(p);
    assert forall c :: c in p ==> c == 'a';
    SubsetDecidesInclusion(p + BELOW, p);
    SubsetByShape(p + BELOW, p);
  }

  // A path that separates two scopes whenever the test says no and there is room.
  lemma Witness(requested: string, allowed: string) returns (path: string)
    requires WriteScopeIsValid(requested) && WriteScopeIsValid(allowed)
    requires !WriteScopeIsSubset(requested, allowed) && !NoRoomBelow(requested, allowed)
    ensures RepositoryRelativePathIsValid(path)
    ensures WriteScopeAllowsPath(requested, path) && !WriteScopeAllowsPath(allowed, path)
  {
    SubsetByShape(requested, allowed);
    ParseIsFaithful(requested);
    ParseIsFaithful(allowed);
    var r, a := Parse(requested), Parse(allowed);
    if r.Everything? {
      path := if a.path == "x" then "y" else "x";
      OneLetterPathIsValid(path[0]);
    } else if r.Directory? && a == Literal(r.path) {
      path := r.path + "/x";
      ChildPathIsValid(r.path);
    } else {
      path := r.path;
    }
    AllowsByShape(requested, path);
    AllowsByShape(allowed, path);
  }

  // -------------------------------------------------------------------------
  // What validity excludes
  // -------------------------------------------------------------------------

  // Walking the components down from a directory below the root: `..` climbs, and fails above it.
  function Walk(directory: seq<string>, parts: seq<string>): Option<seq<string>>
    decreases |parts|
  {
    if parts == [] then Some(directory)
    else if parts[0] == "" || parts[0] == "." then Walk(directory, parts[1..])
    else if parts[0] == ".." then
      if directory == [] then None else Walk(directory[..|directory| - 1], parts[1..])
    else Walk(directory + [parts[0]], parts[1..])
  }

  // Where a path leads from the repository root, if it stays in the repository.
  function Resolve(path: string): Option<seq<string>> {
    if "/" <= path then None else Walk([], Split(path))
  }

  // A component that names a file or directory of the directory it is looked up in.
  predicate IsName(part: string) {
    part != "" && part != "." && part != ".." && forall c :: c in part ==> c != '\\' && c != ':' && !IsControl(c)
  }

  ghost predicate AreNames(parts: seq<string>) {
    forall part :: part in parts ==> IsName(part)
  }

  lemma {:induction false} NamesWalkDown(directory: seq<string>, parts: seq<string>)
    requires AreNames(parts)
    ensures Walk(directory, parts) == Some(directory + parts)
    decreases |parts|
  {
    if parts == [] {
      assert directory + parts == directory;
    } else {
      assert parts[0] in parts;
      NamesWalkDown(directory + [parts[0]], parts[1..]);
      assert directory + [parts[0]] + parts[1..] == directory + parts;
    }
  }

  // Exactly the characters but the slashes are in the components.
  lemma {:induction false} PartsHoldTheCharacters(s: string)
    ensures forall part, c :: part in Split(s) && c in part ==> c in s
    ensures forall c :: c in s && c != '/' ==> exists part :: part in Split(s) && c in part
  {
    if s != "" {
      var rest := Split(s[1..]);
      PartsHoldTheCharacters(s[1..]);
      assert s == [s[0]] + s[1..];
      forall c | c in s && c != '/'
        ensures exists part :: part in Split(s) && c in part
      {
        if c in s[1..] {
          var part :| part in rest && c in part;
          HeadGrows(s[0], rest, part, c);
        } else {
          assert c in Split(s)[0];
        }
      }
    }
  }

  // Prepending a character to a text keeps what its components hold.
  lemma HeadGrows(first: char, rest: seq<string>, part: string, c: char)
    requires rest != [] && part in rest && c in part
    ensures exists p :: p in (if first == '/' then [""] + rest else [[first] + rest[0]] + rest[1..]) && c in p
  {
    var parts := if first == '/' then [""] + rest else [[first] + rest[0]] + rest[1..];
    if first == '/' || part != rest[0] {
      var k :| 0 <= k < |rest| && rest[k] == part;
      assert parts[if first == '/' then k + 1 else k] == part;
    } else {
      assert c in parts[0];
    }
  }

  lemma DoubleSlashLeavesEmptyPart(s: string)
    requires "/" <= s || ContainsDoubleSlash(s)
    ensures "" in Split(s)
  {
    if "/" <= s {
      assert Split(s)[0] == "";
    } else {
      var i :| 0 <= i < |s| - 1 && s[i] == '/' && s[i + 1] == '/';
      assert s == s[..i] + "/" + s[i + 1..];
      SplitAtSlash(s[..i], s[i + 1..]);
      assert Split(s[i + 1..])[0] == "";
    }
  }

  // A path is valid exactly if all of its components are names, it fits, and no whitespace
  // surrounds it.
  lemma PathsAreNames(path: string)
    ensures RepositoryRelativePathIsValid(path) <==>
            AreNames(Split(path)) && ByteLen(path) <= MAX_PATH_BYTES && Trimmed(path)
  {
    TrimIsNormalForm(path);
    if RepositoryRelativePathIsValid(path) {
      ValidPathsHaveNames(path);
    } else if AreNames(Split(path)) {
      NamesHaveNoBadCharacters(path);
      if "/" <= path || ContainsDoubleSlash(path) {
        DoubleSlashLeavesEmptyPart(path);
      }
    }
  }

  lemma ValidPathsHaveNames(path: string)
    requires RepositoryRelativePathIsValid(path)
    ensures AreNames(Split(path))
  {
    PartsHoldTheCharacters(path);
  }

  lemma NamesHaveNoBadCharacters(path: string)
    requires AreNames(Split(path))
    ensures path != "" && !("\\" <= path) && forall c :: c in path ==> c != '\\' && c != ':' && !IsControl(c)
  {
    PartsHoldTheCharacters(path);
    assert Split(path)[0] in Split(path);
    forall c | c in path
      ensures c != '\\' && c != ':' && !IsControl(c)
    {
      if c != '/' {
        var part :| part in Split(path) && c in part;
      }
    }
    assert path[0] in path;
  }

  // So a valid path never climbs: from the root it leads down through its own components, and
  // spells no other place.
  lemma ValidPathsStayInside(path: string)
    requires RepositoryRelativePathIsValid(path)
    ensures Resolve(path) == Some(Split(path)) && ".." !in Split(path)
  {
    PathsAreNames(path);
    NamesWalkDown([], Split(path));
    assert [] + Split(path) == Split(path);
  }

  // A valid path without pattern characters.
  predicate IsPlainPath(path: string) {
    RepositoryRelativePathIsValid(path) && forall c :: c in path ==> c != '*' && c != '?' && c != '[' && c != ']'
  }

  // The valid scopes are `**`, the plain paths, and the plain paths followed by `/**`.
  lemma ScopesArePlain(scope: string)
    ensures WriteScopeIsValid(scope) <==>
            scope == "**" || IsPlainPath(scope) || exists path :: IsPlainPath(path) && scope == path + "/**"
  {
    assert BELOW == "/**";
    var path := StripSuffix(scope, BELOW);
    if path.Some? {
      assert scope == path.value + BELOW;
      assert scope[|scope| - 1] == '*' && '*' in scope;
      forall other | scope == other + BELOW
        ensures other == path.value
      {
        assert other == scope[..|scope| - |BELOW|];
      }
    } else {
      assert forall other :: scope == other + BELOW ==> EndsWith(scope, BELOW);
    }
  }

  // What a valid scope allows stays inside: its own path does, and everything below it.
  lemma ValidScopesStayInside(scope: string, path: string)
    requires WriteScopeIsValid(scope) && scope != ANY
    requires RepositoryRelativePathIsValid(path) && WriteScopeAllowsPath(scope, path)
    ensures var own := StripSuffix(scope, BELOW).UnwrapOr(scope);
            Resolve(own).Some? && Resolve(path).Some? && Resolve(own).value <= Resolve(path).value
  {
    var own := StripSuffix(scope, BELOW).UnwrapOr(scope);
    ValidPathsStayInside(own);
    ValidPathsStayInside(path);
    if StripSuffix(scope, BELOW).Some? {
      assert scope == own + BELOW;
      DirectoryScopeIsComponentPrefix(own, path);
    }
  }
}
