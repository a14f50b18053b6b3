/** The agent's operation allowlist and the file operations behind it. */
module Allowlist {
  import opened Wrappers
  import opened Text
  import opened Glob
  import opened LexicalPath

  /** Bare operations, and path patterns per operation in configuration order. */
  datatype Lists = Lists(bare: set<string>, pathScoped: map<string, seq<string>>)

  datatype Entry = Blank | Bare(op: string) | Scoped(op: string, pattern: string)

  // An entry is path-scoped when it has a colon after at least one character.
  function Classify(raw: string): Entry {
    var s := Strip(raw);
    var i := Find(s, ':');
    if s == "" then Blank
    else if 0 < i < |s| then Scoped(s[..i], s[i + 1..])
    else Bare(s)
  }

  /** An entry with a colon behind its first character allows what stands before the colon for
      the paths of the pattern behind it; any other entry with text is an operation. */
  lemma EntryMeans(raw: string, op: string, pattern: string)
    ensures Classify(raw) == Blank <==> Strip(raw) == ""
    ensures Classify(raw) == Scoped(op, pattern) <==> Strip(raw) == op + ":" + pattern && op != "" && ':' !in op
    ensures Classify(raw) == Bare(op) <==> Strip(raw) == op && op != "" && (':' !in op || op[0] == ':')
  {
    var s := Strip(raw);
    var i := Find(s, ':');
    if i < |s| {
      assert s == s[..i] + ":" + s[i + 1..];
      assert forall j :: 0 <= j < i ==> s[..i][j] == s[j];
    } else {
      assert ':' !in s;
    }
    if s == op + ":" + pattern && ':' !in op {
      FindAt(op, ':', pattern);
      assert op + [':'] + pattern == op + ":" + pattern;
    }
    if s == op && op != "" && ':' !in op {
      FindNone(op, ':');
    }
  }

  function PatternsFor(entries: seq<string>, op: string): seq<string> {
    if entries == [] then []
    else
      var rest := PatternsFor(entries[..|entries| - 1], op);
      match Classify(entries[|entries| - 1])
      case Scoped(o, pattern) => if o == op then rest + [pattern] else rest
      case _ => rest
  }

  predicate ListedBare(entries: seq<string>, op: string) {
    exists i :: 0 <= i < |entries| && Classify(entries[i]) == Bare(op)
  }

  ghost predicate Represents(al: Lists, entries: seq<string>) {
    && (forall op :: op in al.bare <==> ListedBare(entries, op))
    && (forall op :: op in al.pathScoped <==> PatternsFor(entries, op) != [])
    && (forall op :: op in al.pathScoped ==> al.pathScoped[op] == PatternsFor(entries, op))
  }

  /** NewAllowlist: the two tables hold exactly what the entries say, patterns in order. */
  method NewAllowlist(entries: seq<string>) returns (al: Lists)
    ensures Represents(al, entries)
  {
    var bare: set<string> := {};
    var scoped: map<string, seq<string>> := map[];
    for i := 0 to |entries|
      invariant Represents(Lists(bare, scoped), entries[..i])
    {
      var soFar := entries[..i + 1];
      assert soFar[..i] == entries[..i] && soFar[i] == entries[i];
      ghost var before := Lists(bare, scoped);
      match Classify(entries[i]) {
        case Blank =>
        case Bare(op) =>
          bare := bare + {op};
        case Scoped(op, pattern) =>
          scoped := scoped[op := (if op in scoped then scoped[op] else []) + [pattern]];
      }
      EntryAdded(before, Lists(bare, scoped), entries[..i], entries[i]);
      assert entries[..i] + [entries[i]] == soFar;
    }
    assert entries[..|entries|] == entries;
    al := Lists(bare, scoped);
  }

  lemma EntryAdded(before: Lists, after: Lists, entries: seq<string>, raw: string)
    requires Represents(before, entries)
    requires match Classify(raw)
             case Blank => after == before
             case Bare(op) => after == before.(bare := before.bare + {op})
             case Scoped(op, pattern) =>
               after == before.(pathScoped := before.pathScoped[op :=
                 (if op in before.pathScoped then before.pathScoped[op] else []) + [pattern]])
    ensures Represents(after, entries + [raw])
  {
    var all := entries + [raw];
    assert all[..|entries|] == entries;
    assert forall i :: 0 <= i < |entries| ==> all[i] == entries[i];
    assert all[|entries|] == raw;
    forall op ensures op in after.bare <==> ListedBare(all, op) {
      if ListedBare(entries, op) {
        var i :| 0 <= i < |entries| && Classify(entries[i]) == Bare(op);
        assert Classify(all[i]) == Bare(op);
      }
    }
  }

  /** What one pattern grants: everything under a directory, or the paths a glob matches. */
  predicate Grants(pattern: string, path: string) {
    if EndsWith(pattern, "/") then pattern <= path
    else
      match Parse(pattern)
      case None => false
      case Some(ts) => LeftmostMatch(ts, path)
  }

  ghost predicate Permitted(entries: seq<string>, op: string, path: string) {
    || ListedBare(entries, op)
    || (path != "" && exists pattern :: pattern in PatternsFor(entries, op) && Grants(pattern, path))
  }

  method Permit(al: Lists, ghost entries: seq<string>, op: string, path: string) returns (ok: bool)
    requires Represents(al, entries)
    ensures ok <==> Permitted(entries, op, path)
  {
    if op in al.bare {
      return true;
    }
    if op !in al.pathScoped || path == "" {
      return false;
    }
    var patterns := al.pathScoped[op];
    for i := 0 to |patterns|
      invariant forall j :: 0 <= j < i ==> !Grants(patterns[j], path)
    {
      if Grants(patterns[i], path) {
        return true;
      }
    }
    return false;
  }

  // ---- File operations ----

  datatype FileOutcome = Denied | BadArgs | Exec(argv: seq<string>)

  predicate CleanPath(path: string) {
    Clean(path) == path && !Contains(path, "..")
  }

  /** The command behind each operation; the path is always its last word. */
  function FileArgv(op: string, path: string, staged: string, mode: string): (argv: seq<string>)
    ensures argv != [] && argv[|argv| - 1] == path
  {
    if op == "file.read" then ["cat", path]
    else if op == "file.write" then ["install", "-m", mode, staged, path]
    else ["rm", "-f", path]
  }

  /** Dispatch of file.read, file.write and file.delete up to the exec: `staged` is the
      temporary file a write goes through and `mode` its octal permission text. */
  method RunFile(al: Lists, ghost entries: seq<string>, op: string, path: string, staged: string, mode: string)
    returns (r: FileOutcome)
    requires Represents(al, entries)
    ensures r.Exec? <==>
              Permitted(entries, op, path) && op in {"file.read", "file.write", "file.delete"} && CleanPath(path)
    ensures r.Exec? ==> r.argv == FileArgv(op, path, staged, mode)
    ensures r.Exec? && op == "file.read" ==> r.argv == ["cat", path]
    ensures r.Exec? && op == "file.write" ==> r.argv == ["install", "-m", mode, staged, path]
    ensures r.Exec? && op == "file.delete" ==> r.argv == ["rm", "-f", path]
    ensures r.Denied? <==> !Permitted(entries, op, path)
  {
    var ok := Permit(al, entries, op, path);
    if !ok {
      return Denied;
    }
    if op != "file.read" && op != "file.write" && op != "file.delete" {
      return BadArgs;
    }
    var clean := Clean(path);
    if clean != path || Contains(clean, "..") {
      return BadArgs;
    }
    if op == "file.read" {
      return Exec(["cat", clean]);
    } else if op == "file.write" {
      return Exec(["install", "-m", mode, staged, clean]);
    }
    return Exec(["rm", "-f", clean]);
  }

  /** A rooted directory pattern covers the path, strictly below the directory. */
  ghost predicate Beneath(path: string, pattern: string) {
    exists dir, rest :: pattern == dir + "/" && path == dir + "/" + rest && rest != ""
      && (dir != "" ==> NormalForm(dir)) && NormalComponents(Split(rest, '/'), true)
  }

  /** A glob covers the path; without separators in its classes it does so component by component. */
  ghost predicate Globbed(path: string, pattern: string) {
    exists ts :: Parse(pattern) == Some(ts) && Matches(ts, path)
      && (SlashSafe(ts) ==> MatchesComponents(Components(ts), Split(path, '/')))
  }

  lemma DirectoryGrant(pattern: string, path: string)
    requires EndsWith(pattern, "/") && pattern[0] == '/' && Grants(pattern, path)
    requires NormalForm(path) && path != "/"
    ensures Beneath(path, pattern)
  {
    var dir := pattern[..|pattern| - 1];
    var rest := path[|pattern|..];
    assert pattern == dir + "/" && path == dir + "/" + rest;
    if dir == "" {
      assert path[1..] == rest;
      assert Split("", '/') == [""];
    } else {
      PrefixIsBeneath(dir, rest);
    }
  }

  lemma RootedGlobStart(pattern: string, path: string)
    requires pattern != "" && pattern[0] == '/' && !EndsWith(pattern, "/") && Grants(pattern, path)
    ensures path != "" && path[0] == '/'
  {
    LeftmostIsSound(Parse(pattern).value, path);
    assert Parse(pattern).value[0] == Literal('/');
  }

  /** For an operation listed only with rooted path patterns, a path that reaches a file
      command is absolute, in normal form and free of "..", and one of the patterns covers it. */
  lemma ReachedPathIsCovered(entries: seq<string>, op: string, path: string)
    requires !ListedBare(entries, op) && Permitted(entries, op, path) && CleanPath(path)
    requires forall pattern :: pattern in PatternsFor(entries, op) ==> pattern != "" && pattern[0] == '/'
    ensures NormalForm(path) && path[0] == '/' && !Contains(path, "..")
    ensures exists pattern :: (pattern in PatternsFor(entries, op) && Grants(pattern, path)
                               && (path != "/" ==> Beneath(path, pattern) || Globbed(path, pattern)))
  {
    CleanFixpoint(path);
    var pattern :| pattern in PatternsFor(entries, op) && Grants(pattern, path);
    if EndsWith(pattern, "/") {
      if path != "/" {
        DirectoryGrant(pattern, path);
      }
    } else {
      RootedGlobStart(pattern, path);
      var ts := Parse(pattern).value;
      LeftmostIsSound(ts, path);
      if SlashSafe(ts) {
        MatchIsComponentwise(ts, path);
      }
    }
  }

  /** Without the assumption on the patterns: still a normal form free of "..", covered by a pattern. */
  lemma ReachedPathIsNormal(entries: seq<string>, op: string, path: string)
    requires !ListedBare(entries, op) && Permitted(entries, op, path) && CleanPath(path)
    ensures NormalForm(path) && forall c :: c in Split(path, '/') ==> c != ".."
    ensures exists pattern :: pattern in PatternsFor(entries, op) && Grants(pattern, path)
  {
    CleanFixpoint(path);
    if ".." in Split(path, '/') {
      PieceOccurs(path, '/', "..");
    }
  }

  lemma {:induction false} PieceOccurs(s: string, c: char, piece: string)
    requires piece in Split(s, c)
    ensures Contains(s, piece)
    decreases |s|
  {
    var i := Find(s, c);
    if i < |s| && piece != s[..i] {
      PieceOccurs(s[i + 1..], c, piece);
      OccursLater(s, i + 1, piece);
    } else {
      assert piece == s[..i] && s[0..i] == s[..i];
      assert OccursAt(s, 0, piece);
    }
  }

  lemma OccursLater(s: string, k: nat, piece: string)
    requires k <= |s| && Contains(s[k..], piece)
    ensures Contains(s, piece)
  {
    var rest := s[k..];
    var j :| 0 <= j <= |rest| && OccursAt(rest, j, piece);
    assert s[k + j..k + j + |piece|] == rest[j..j + |piece|];
    assert OccursAt(s, k + j, piece);
  }

  /** What a pattern grants: a directory what starts with it, text without glob characters
      itself, any other glob what matches it component by component, and malformed text
      nothing. */
  lemma GrantsIff(pattern: string, path: string)
    ensures EndsWith(pattern, "/") ==> (Grants(pattern, path) <==> exists rest :: path == pattern + rest)
    ensures !EndsWith(pattern, "/") && IsPlain(pattern) ==> (Grants(pattern, path) <==> path == pattern)
    ensures !EndsWith(pattern, "/") && Parse(pattern).None? ==> !Grants(pattern, path)
    ensures !EndsWith(pattern, "/") && Parse(pattern).Some? && SlashSafe(Parse(pattern).value) ==>
              (Grants(pattern, path)
               <==> MatchesComponents(Components(Parse(pattern).value), Split(path, '/')))
  {
    if EndsWith(pattern, "/") {
      assert pattern <= path ==> path == pattern + path[|pattern|..];
    } else if Parse(pattern).Some? && SlashSafe(Parse(pattern).value) {
      LeftmostIsMatch(Parse(pattern).value, path);
      MatchIsComponentwise(Parse(pattern).value, path);
    }
    if !EndsWith(pattern, "/") && IsPlain(pattern) {
      PlainGrantsItself(pattern, path);
    }
  }

  lemma PlainGrantsItself(pattern: string, path: string)
    requires IsPlain(pattern) && !EndsWith(pattern, "/")
    ensures Grants(pattern, path) <==> path == pattern
  {
    ParsePlain(pattern, "");
    assert pattern + "" == pattern && Literals(pattern) + [] == Literals(pattern);
    LiteralsSafe(pattern);
    LeftmostIsMatch(Literals(pattern), path);
    PlainMatchesItself(pattern, path);
  }

  // ---- Directory patterns as globs ----

  /** The glob reading of a directory pattern: it covers what lies below any directory that
      the pattern matches. */
  ghost predicate CoversAsGlob(pattern: string, path: string)
    requires Parse(pattern).Some?
  {
    exists k :: 0 <= k < |path| && Matches(Parse(pattern).value, path[..k])
  }

  lemma NotAPrefix(pattern: string, name: string)
    requires EndsWith(pattern, "/") && SampleOf(pattern, name) && !IsPlain(pattern)
    ensures !(pattern <= name + "x")
  {
    var path := name + "x";
    if |name| == |pattern| {
      var i :| 0 <= i < |pattern| && IsMeta(pattern[i]);
      assert path[i] == name[i] == 'a';
    } else if |path| == |pattern| {
      assert path[|pattern| - 1] == 'x';
      assert pattern[|pattern| - 1..] == "/" && pattern[|pattern| - 1] == '/';
    }
  }

  /** A well-formed directory pattern with satisfiable classes grants everything it would
      cover as a glob if and only if it has no special character at all. */
  lemma DirectoryGlobIff(pattern: string)
    requires EndsWith(pattern, "/") && Parse(pattern).Some? && Satisfiable(Parse(pattern).value)
    ensures (forall path :: CoversAsGlob(pattern, path) ==> Grants(pattern, path)) <==> IsPlain(pattern)
  {
    if IsPlain(pattern) {
      forall path | CoversAsGlob(pattern, path) ensures Grants(pattern, path) {
        var k :| 0 <= k < |path| && Matches(Parse(pattern).value, path[..k]);
        PlainMatchesItself(pattern, path[..k]);
      }
    } else {
      var name := Sample(pattern);
      var path := name + "x";
      assert path[..|name|] == name;
      NotAPrefix(pattern, name);
      assert CoversAsGlob(pattern, path) && !Grants(pattern, path);
    }
  }

  /** One star between plain parts: as a glob the pattern would cover every path that has a
      run without separators in its place, but it grants none whose run does not begin with
      a star itself. */
  lemma StarredDirectory(a: string, b: string, mid: string, rest: string)
    requires IsPlain(a) && IsPlain(b) && EndsWith(b, "/") && '/' !in mid && rest != ""
    ensures var pattern, path := a + "*" + b, a + mid + b + rest;
            && Parse(pattern).Some? && CoversAsGlob(pattern, path)
            && (Grants(pattern, path) ==> mid + b + rest != "" && (mid + b + rest)[0] == '*')
  {
    var pattern, path := a + "*" + b, a + mid + b + rest;
    StarredParse(a, b);
    StarredMatch(a, b, mid);
    var name := a + mid + b;
    assert path[..|name|] == name;
    assert pattern[|a|] == '*' && path[|a|..] == mid + b + rest;
    assert EndsWith(pattern, "/") by {
      assert pattern[|pattern| - 1..] == b[|b| - 1..];
    }
  }

  lemma StarredParse(a: string, b: string)
    requires IsPlain(a) && IsPlain(b)
    ensures Parse(a + "*" + b) == Some(Literals(a) + ([Star] + Literals(b)))
  {
    var rest := "*" + b;
    assert a + "*" + b == a + rest && rest[1..] == b && b + "" == b;
    ParsePlain(b, "");
    assert Literals(b) + [] == Literals(b);
    ParsePlain(a, rest);
  }

  lemma StarredMatch(a: string, b: string, mid: string)
    requires '/' !in mid
    ensures Matches(Literals(a) + ([Star] + Literals(b)), a + mid + b)
  {
    var ts, tail := [Star] + Literals(b), mid + b;
    assert Literals(b) + [] == Literals(b) && b[|b|..] == "";
    LiteralsMatch(b, [], b);
    StarEmpty(Literals(b), b);
    assert tail[|mid|..] == b;
    StarAbsorbs(ts, tail, |mid|);
    assert a + mid + b == a + tail && (a + tail)[|a|..] == tail;
    LiteralsMatch(a, ts, a + tail);
  }

  lemma ShippedParts()
    ensures "/opt/kafka-*/config/" == "/opt/kafka-" + "*" + "/config/"
    ensures "/opt/kafka-prod/config/server.properties" == "/opt/kafka-" + "prod" + "/config/" + "server.properties"
    ensures IsPlain("/opt/kafka-") && IsPlain("/config/") && EndsWith("/config/", "/")
  {
    assert "/config/"[7..] == "/";
  }

  /** So the shipped entry for Kafka configuration directories does not cover a broker's own
      file, which it would cover as a glob. */
  lemma ShippedDirectoryGlobDenies()
    ensures var pattern, path := "/opt/kafka-*/config/", "/opt/kafka-prod/config/server.properties";
            Parse(pattern).Some? && CoversAsGlob(pattern, path) && !Grants(pattern, path)
  {
    ShippedParts();
    var tail := "prod" + "/config/" + "server.properties";
    assert tail[0] == 'p';
    StarredDirectory("/opt/kafka-", "/config/", "prod", "server.properties");
  }

  // ---- Relative paths ----

  /** A directory that relative paths can be below: no empty, "." or ".." component, and no
      two dots in a row. */
  ghost predicate PlainRelative(dir: string) {
    NormalComponents(Split(dir, '/'), false) && !Contains(dir, "..")
  }

  // Every path-scoped entry of the operation names a directory.
  ghost predicate OnlyDirectories(entries: seq<string>, op: string) {
    forall pattern :: pattern in PatternsFor(entries, op) ==> EndsWith(pattern, "/")
  }

  // A relative path that reaches a file command.
  ghost predicate RelativeReached(entries: seq<string>, op: string, path: string) {
    Permitted(entries, op, path) && CleanPath(path) && path[..1] != "/"
  }

  lemma DotlessName()
    ensures CleanPath("a") && "a"[..1] != "/"
  {
    FindNone("a", '/');
    assert Split("a", '/') == ["a"] && NormalForm("a");
    CleanFixpoint("a");
    assert forall i :: 0 <= i <= 1 ==> !OccursAt("a", i, "..");
  }

  lemma DotsInFront(dir: string, name: string)
    requires Contains(dir + "/" + name, "..") && '.' !in name
    ensures Contains(dir, "..")
  {
    var p := dir + "/" + name;
    var i :| 0 <= i <= |p| && OccursAt(p, i, "..");
    assert p[i..i + 2] == ".." && p[i] == '.' && p[i + 1] == '.' by {
      assert p[i..i + 2][0] == p[i] && p[i..i + 2][1] == p[i + 1];
    }
    assert i + 1 < |dir| by {
      assert forall k :: |dir| < k < |p| ==> p[k] == name[k - |dir| - 1] && p[k] in name;
      assert p[|dir|] == '/';
    }
    assert dir[i..i + 2] == p[i..i + 2];
    assert OccursAt(dir, i, "..");
  }

  lemma BelowRelative(dir: string)
    requires PlainRelative(dir)
    ensures CleanPath(dir + "/a") && (dir + "/a")[..1] != "/"
  {
    var p := dir + "/a";
    FindNone("a", '/');
    SplitAppend(dir, "a", '/');
    assert p == dir + ['/'] + "a" && Split(p, '/') == Split(dir, '/') + ["a"];
    RelativeComponents(dir);
    RelativeStart(dir);
    assert NormalForm(p) by {
      assert p[0] == dir[0];
    }
    CleanFixpoint(p);
    if Contains(p, "..") {
      assert p == dir + "/" + "a";
      DotsInFront(dir, "a");
    }
  }

  lemma RelativeComponents(dir: string)
    requires PlainRelative(dir)
    ensures NormalComponents(Split(dir, '/') + ["a"], false)
  {
    var cs := Split(dir, '/');
    forall i | 0 <= i < |cs| ensures cs[i] != ".." {
      if cs[i] == ".." {
        PieceOccurs(dir, '/', "..");
      }
    }
    var all := cs + ["a"];
    assert forall i :: 0 <= i < |cs| ==> all[i] == cs[i];
    assert all[|cs|] == "a" && "a" != ".." && "a" != "." && '/' !in "a";
  }

  lemma RelativeStart(dir: string)
    requires NormalComponents(Split(dir, '/'), false)
    ensures dir != "" && dir[0] != '/'
  {
    assert Split(dir, '/')[0] != "";
    assert Split("", '/')[0] == "";
  }

  lemma RelativeNormal(path: string)
    requires CleanPath(path) && path[..1] != "/" && path != "."
    ensures NormalComponents(Split(path, '/'), false)
  {
    CleanFixpoint(path);
    assert path[..1] == [path[0]];
  }

  lemma FrontIsPlain(dir: string, rest: string)
    requires NormalComponents(Split(dir + "/" + rest, '/'), false) && !Contains(dir + "/" + rest, "..")
    ensures PlainRelative(dir)
  {
    assert dir + "/" + rest == dir + ['/'] + rest && dir + "/" + rest == dir + ("/" + rest);
    SplitAppend(dir, rest, '/');
    FrontIsNormal(Split(dir, '/'), Split(rest, '/'));
    if Contains(dir, "..") {
      DotsLater(dir, "/" + rest);
    }
  }

  // What a relative path below a directory says about the directory.
  lemma DirectoryOfRelative(dir: string, path: string)
    requires dir + "/" <= path && CleanPath(path) && path[..1] != "/"
    ensures PlainRelative(dir)
  {
    assert path[|dir|] == '/';
    RelativeNormal(path);
    assert path == dir + "/" + path[|dir| + 1..];
    FrontIsPlain(dir, path[|dir| + 1..]);
  }

  lemma FrontIsNormal(ds: seq<string>, rs: seq<string>)
    requires NormalComponents(ds + rs, false)
    ensures NormalComponents(ds, false)
  {
    assert forall i :: 0 <= i < |ds| ==> ds[i] == (ds + rs)[i];
  }

  lemma DotsLater(dir: string, rest: string)
    requires Contains(dir, "..")
    ensures Contains(dir + rest, "..")
  {
    var i :| 0 <= i <= |dir| && OccursAt(dir, i, "..");
    assert (dir + rest)[i..i + 2] == dir[i..i + 2];
    assert OccursAt(dir + rest, i, "..");
  }

  /** For an operation whose patterns are directories, some relative path reaches a file
      command if and only if the operation is listed bare or one of the directories is
      relative, in normal form and without two dots in a row. */
  lemma RelativeReachedIff(entries: seq<string>, op: string)
    requires OnlyDirectories(entries, op)
    ensures (exists path :: RelativeReached(entries, op, path))
            <==> ListedBare(entries, op) || exists dir :: dir + "/" in PatternsFor(entries, op) && PlainRelative(dir)
  {
    if ListedBare(entries, op) {
      DotlessName();
      assert RelativeReached(entries, op, "a");
    } else if dir :| dir + "/" in PatternsFor(entries, op) && PlainRelative(dir) {
      RelativeBelow(entries, op, dir);
    } else if path :| RelativeReached(entries, op, path) {
      ReachedFromRelative(entries, op, path);
    }
  }

  lemma RelativeBelow(entries: seq<string>, op: string, dir: string)
    requires dir + "/" in PatternsFor(entries, op) && PlainRelative(dir)
    ensures RelativeReached(entries, op, dir + "/a")
  {
    BelowRelative(dir);
    var pattern, path := dir + "/", dir + "/a";
    assert pattern[|pattern| - 1..] == "/" && path[..|pattern|] == pattern;
    assert Grants(pattern, path);
  }

  lemma ReachedFromRelative(entries: seq<string>, op: string, path: string)
    requires OnlyDirectories(entries, op) && !ListedBare(entries, op) && RelativeReached(entries, op, path)
    ensures exists dir :: dir + "/" in PatternsFor(entries, op) && PlainRelative(dir)
  {
    var pattern :| pattern in PatternsFor(entries, op) && Grants(pattern, path);
    var dir := pattern[..|pattern| - 1];
    assert pattern == dir + "/";
    DirectoryOfRelative(dir, path);
  }

  /** With the one entry `file.read`, reading the relative path `a` is executed. */
  method RelativeRead(staged: string, mode: string) returns (r: FileOutcome)
    ensures r == Exec(["cat", "a"])
  {
    var entries := ["file.read"];
    var al := NewAllowlist(entries);
    BareRead();
    DotlessName();
    assert Classify(entries[0]) == Bare("file.read") && ListedBare(entries, "file.read");
    r := RunFile(al, entries, "file.read", "a", staged, mode);
  }

  lemma BareRead()
    ensures Classify("file.read") == Bare("file.read")
  {
    var s := "file.read";
    StripUnique("", s, "");
    assert "" + s + "" == s;
    FindNone(s, ':');
  }
}
