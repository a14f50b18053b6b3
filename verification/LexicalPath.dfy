/** Lexical path cleaning (Go's filepath.Clean and filepath.Join on a slash-separated system). */
module LexicalPath {
  import opened Text

  // One path component applied to the components kept so far.
  function Push(c: string, rooted: bool, kept: seq<string>): seq<string> {
    if c == "" || c == "." then kept
    else if c != ".." then kept + [c]
    else if kept != [] && kept[|kept| - 1] != ".." then kept[..|kept| - 1]
    else if rooted then kept
    else kept + [c]
  }

  function Resolve(cs: seq<string>, rooted: bool, kept: seq<string>): seq<string> {
    if cs == [] then kept else Resolve(cs[1..], rooted, Push(cs[0], rooted, kept))
  }

  function Clean(p: string): string {
    if p == "" then "."
    else if p[0] == '/' then "/" + Join(Resolve(Split(p[1..], '/'), true, []), "/")
    else
      var cs := Resolve(Split(p, '/'), false, []);
      if cs == [] then "." else Join(cs, "/")
  }

  function JoinPath(dir: string, rel: string): string
    requires dir != "" && rel != ""
  {
    Clean(dir + "/" + rel)
  }

  /** No empty or "." component, and ".." only as a leading run of a relative path. */
  ghost predicate NormalComponents(cs: seq<string>, rooted: bool) {
    && (forall i :: 0 <= i < |cs| ==> cs[i] != "" && cs[i] != "." && '/' !in cs[i])
    && (forall i :: 0 <= i < |cs| && cs[i] == ".." ==> !rooted)
    && (forall i, j :: 0 <= i <= j < |cs| && cs[j] == ".." ==> cs[i] == "..")
  }

  /** A path that lexical cleaning has nothing to do for. */
  ghost predicate NormalForm(p: string) {
    if p == "" then false
    else if p[0] == '/' then p == "/" || NormalComponents(Split(p[1..], '/'), true)
    else p == "." || NormalComponents(Split(p, '/'), false)
  }

  lemma {:induction false} ResolveIsNormal(cs: seq<string>, rooted: bool, kept: seq<string>)
    requires NormalComponents(kept, rooted) && forall c :: c in cs ==> '/' !in c
    ensures NormalComponents(Resolve(cs, rooted, kept), rooted)
    decreases |cs|
  {
    if cs != [] {
      assert cs[0] in cs;
      PushKeepsNormal(cs[0], rooted, kept);
      ResolveIsNormal(cs[1..], rooted, Push(cs[0], rooted, kept));
    }
  }

  lemma PushKeepsNormal(c: string, rooted: bool, kept: seq<string>)
    requires NormalComponents(kept, rooted) && '/' !in c
    ensures NormalComponents(Push(c, rooted, kept), rooted)
  {
    if c == ".." && (kept == [] || kept[|kept| - 1] == "..") {
      assert forall i :: 0 <= i < |kept| ==> kept[i] == "..";
    }
  }

  lemma {:induction false} ResolveKeepsNormal(cs: seq<string>, rooted: bool, kept: seq<string>)
    requires NormalComponents(kept + cs, rooted)
    ensures Resolve(cs, rooted, kept) == kept + cs
    decreases |cs|
  {
    if cs == [] {
      assert kept + cs == kept;
    } else {
      var all := kept + cs;
      assert all[|kept|] == cs[0];
      assert cs[0] == ".." && kept != [] ==> all[|kept| - 1] == "..";
      assert kept + [cs[0]] + cs[1..] == all;
      ResolveKeepsNormal(cs[1..], rooted, kept + [cs[0]]);
    }
  }

  lemma {:induction false} NormalJoin(cs: seq<string>, rooted: bool)
    requires cs != [] && NormalComponents(cs, rooted)
    ensures Split(Join(cs, "/"), '/') == cs
    ensures Join(cs, "/") != "" && Join(cs, "/")[0] != '/'
  {
    assert forall c :: c in cs ==> '/' !in c;
    SplitJoin(cs, '/');
    assert cs[0] != "" && cs[0][0] in cs[0];
  }

  /** Cleaning always yields a normal form. */
  lemma CleanIsNormal(p: string)
    ensures NormalForm(Clean(p))
  {
    if p != "" {
      var rooted := p[0] == '/';
      var raw := if rooted then p[1..] else p;
      SplitPieces(raw, '/');
      var cs := Resolve(Split(raw, '/'), rooted, []);
      ResolveIsNormal(Split(raw, '/'), rooted, []);
      if cs != [] {
        NormalJoin(cs, rooted);
        if rooted {
          assert Clean(p)[1..] == Join(cs, "/");
        }
      } else {
        assert rooted ==> Clean(p) == "/";
      }
    }
  }

  /** The paths cleaning leaves alone are exactly the normal forms. */
  lemma CleanFixpoint(p: string)
    ensures Clean(p) == p <==> NormalForm(p)
  {
    CleanIsNormal(p);
    if NormalForm(p) && p != "/" && p != "." {
      var rooted := p[0] == '/';
      var raw := if rooted then p[1..] else p;
      assert [] + Split(raw, '/') == Split(raw, '/');
      ResolveKeepsNormal(Split(raw, '/'), rooted, []);
      JoinSplit(raw, '/');
    } else if p == "/" {
      assert p[1..] == "" && Split("", '/') == [""];
      assert Resolve([""], true, []) == Resolve([], true, []) == [];
    } else if p == "." {
      FindNone(".", '/');
      assert Resolve(["."], false, []) == Resolve([], false, []) == [];
    }
  }

  lemma CleanIdempotent(p: string)
    ensures Clean(Clean(p)) == Clean(p)
  {
    CleanIsNormal(p);
    CleanFixpoint(Clean(p));
  }

  lemma {:induction false} SplitAppend(a: string, b: string, c: char)
    ensures Split(a + [c] + b, c) == Split(a, c) + Split(b, c)
    decreases |a|
  {
    var s := a + [c] + b;
    var i := Find(a, c);
    if i == |a| {
      SplitAt(a, c, b);
    } else {
      assert forall j :: 0 <= j < |a| ==> s[j] == a[j];
      assert Find(s, c) == i;
      assert s[..i] == a[..i] && s[i + 1..] == a[i + 1..] + [c] + b;
      SplitAppend(a[i + 1..], b, c);
      assert [a[..i]] + (Split(a[i + 1..], c) + Split(b, c)) == [a[..i]] + Split(a[i + 1..], c) + Split(b, c);
    }
  }

  // ---- What cleaning takes away ----

  predicate Rooted(p: string) {
    p != "" && p[0] == '/'
  }

  function Parts(p: string): seq<string> {
    Split(if Rooted(p) then p[1..] else p, '/')
  }

  function Rendered(cs: seq<string>, rooted: bool): string {
    if rooted then "/" + Join(cs, "/") else if cs == [] then "." else Join(cs, "/")
  }

  lemma CleanRenders(p: string)
    ensures Clean(p) == Rendered(Resolve(Parts(p), Rooted(p), []), Rooted(p))
  {
    if p == "" {
      assert Split("", '/') == [""] && Resolve([""], false, []) == Resolve([], false, []);
    }
  }

  lemma PartsOf(a: string, b: string)
    ensures Rooted(a + "/" + b) <==> a == "" || Rooted(a)
    ensures Parts(a + "/" + b) == (if a == "" then [] else Parts(a)) + Split(b, '/')
  {
    var p := a + "/" + b;
    if a == "" {
      assert p[1..] == b && [] + Split(b, '/') == Split(b, '/');
    } else if Rooted(a) {
      SplitBelow(a, b);
    } else {
      SplitAppend(a, b, '/');
      assert a + ['/'] + b == p;
    }
  }

  lemma {:induction false} ResolveAppend(a: seq<string>, b: seq<string>, rooted: bool, kept: seq<string>)
    ensures Resolve(a + b, rooted, kept) == Resolve(b, rooted, Resolve(a, rooted, kept))
    decreases |a|
  {
    if a == [] {
      assert a + b == b;
    } else {
      assert (a + b)[1..] == a[1..] + b;
      ResolveAppend(a[1..], b, rooted, Push(a[0], rooted, kept));
    }
  }

  // Components that leave every list of kept ones as it was make no difference.
  lemma WithoutEffect(front: seq<string>, middle: seq<string>, back: seq<string>, rooted: bool)
    requires Resolve(middle, rooted, Resolve(front, rooted, [])) == Resolve(front, rooted, [])
    ensures Resolve(front + (middle + back), rooted, []) == Resolve(front + back, rooted, [])
  {
    ResolveAppend(front, middle + back, rooted, []);
    ResolveAppend(middle, back, rooted, Resolve(front, rooted, []));
    ResolveAppend(front, back, rooted, []);
  }

  lemma OneResolved(c: string, rooted: bool, kept: seq<string>)
    ensures Resolve([c], rooted, kept) == Push(c, rooted, kept)
  {
    assert [c][1..] == [];
  }

  lemma SplitTwo(c: string, b: string)
    requires '/' !in c
    ensures Split(c + "/" + b, '/') == [c] + Split(b, '/')
  {
    SplitAt(c, '/', b);
    assert c + ['/'] + b == c + "/" + b;
  }

  lemma AfterFront(a: string, b: string, b': string, middle: seq<string>)
    requires Split(b, '/') == middle + Split(b', '/')
    requires var rooted, front := a == "" || Rooted(a), if a == "" then [] else Parts(a);
             Resolve(middle, rooted, Resolve(front, rooted, [])) == Resolve(front, rooted, [])
    ensures Clean(a + "/" + b) == Clean(a + "/" + b')
  {
    var rooted, front := a == "" || Rooted(a), if a == "" then [] else Parts(a);
    CleanRenders(a + "/" + b);
    CleanRenders(a + "/" + b');
    PartsOf(a, b);
    PartsOf(a, b');
    WithoutEffect(front, middle, Split(b', '/'), rooted);
  }

  /** Empty components and single dots are dropped. */
  lemma CleanDrops(a: string, c: string, b: string)
    requires c == "" || c == "."
    ensures Clean(a + "/" + (c + "/" + b)) == Clean(a + "/" + b)
  {
    var rooted, front := a == "" || Rooted(a), if a == "" then [] else Parts(a);
    SplitTwo(c, b);
    OneResolved(c, rooted, Resolve(front, rooted, []));
    AfterFront(a, c + "/" + b, b, [c]);
  }

  lemma BackResolved(c: string, rooted: bool, kept: seq<string>)
    requires c != "" && c != "." && c != ".."
    ensures Resolve([c] + [".."], rooted, kept) == kept
  {
    ResolveAppend([c], [".."], rooted, kept);
    OneResolved(c, rooted, kept);
    OneResolved("..", rooted, kept + [c]);
    assert (kept + [c])[..|kept|] == kept;
  }

  lemma SplitThree(c: string, d: string, b: string)
    requires '/' !in c && '/' !in d
    ensures Split(c + "/" + (d + "/" + b), '/') == [c] + [d] + Split(b, '/')
  {
    SplitTwo(c, d + "/" + b);
    SplitTwo(d, b);
    ConcatInOrder([c], [d], Split(b, '/'));
  }

  /** Two dots take back the component before them. */
  lemma CleanTakesBack(a: string, c: string, b: string)
    requires c != "" && c != "." && c != ".." && '/' !in c
    ensures Clean(a + "/" + (c + "/" + (".." + "/" + b))) == Clean(a + "/" + b)
  {
    var rooted, front := a == "" || Rooted(a), if a == "" then [] else Parts(a);
    SplitThree(c, "..", b);
    BackResolved(c, rooted, Resolve(front, rooted, []));
    AfterFront(a, c + "/" + (".." + "/" + b), b, [c] + [".."]);
  }

  /** At the root there is nothing to take back. */
  lemma CleanStaysAtRoot(b: string)
    ensures Clean("" + "/" + (".." + "/" + b)) == Clean("" + "/" + b)
  {
    SplitTwo("..", b);
    OneResolved("..", true, []);
    AfterFront("", ".." + "/" + b, b, [".."]);
  }

  /** A slash at the end makes no difference. */
  lemma CleanEnds(a: string)
    requires a != ""
    ensures Clean(a + "/" + "") == Clean(a)
  {
    CleanRenders(a + "/" + "");
    CleanRenders(a);
    PartsOf(a, "");
    assert Split("", '/') == [""];
    ResolveAppend(Parts(a), [""], Rooted(a), []);
    OneResolved("", Rooted(a), Resolve(Parts(a), Rooted(a), []));
  }

  lemma NormalConcat(ds: seq<string>, rs: seq<string>)
    ensures NormalComponents(ds + rs, true) <==> NormalComponents(ds, true) && NormalComponents(rs, true)
  {
    var all := ds + rs;
    assert forall i :: 0 <= i < |ds| ==> ds[i] == all[i];
    assert forall i :: 0 <= i < |rs| ==> rs[i] == all[|ds| + i];
  }

  lemma SplitBelow(dir: string, rel: string)
    requires dir != ""
    ensures Split((dir + "/" + rel)[1..], '/') == Split(dir[1..], '/') + Split(rel, '/')
  {
    SplitAppend(dir[1..], rel, '/');
    assert (dir + "/" + rel)[1..] == dir[1..] + ['/'] + rel;
  }

  /** Below a rooted normal directory, normal components make a normal path. */
  lemma NormalBelow(dir: string, rel: string)
    requires NormalForm(dir) && dir[0] == '/' && dir != "/"
    requires NormalComponents(Split(rel, '/'), true)
    ensures NormalForm(dir + "/" + rel)
  {
    SplitBelow(dir, rel);
    NormalConcat(Split(dir[1..], '/'), Split(rel, '/'));
  }

  /** Joining such a relative path below such a directory only adds the slash. */
  lemma JoinBelow(dir: string, rel: string)
    requires NormalForm(dir) && dir[0] == '/' && dir != "/"
    requires rel != "" && NormalComponents(Split(rel, '/'), true)
    ensures JoinPath(dir, rel) == dir + "/" + rel
  {
    NormalBelow(dir, rel);
    CleanFixpoint(dir + "/" + rel);
  }

  /** A normal path that starts with a directory spelled with its trailing slash lies
      beneath that directory: the directory itself is in normal form, and a non-empty
      chain of ordinary components follows it. */
  lemma PrefixIsBeneath(dir: string, rest: string)
    requires dir != "" && dir[0] == '/' && NormalForm(dir + "/" + rest)
    ensures NormalForm(dir) && rest != "" && NormalComponents(Split(rest, '/'), true)
  {
    var ds, rs := Split(dir[1..], '/'), Split(rest, '/');
    assert NormalComponents(ds + rs, true) by {
      SplitBelow(dir, rest);
      assert |dir + "/" + rest| > 1;
    }
    NormalConcat(ds, rs);
    assert Split("", '/') == [""];
    assert rs[0] != "";
  }
}
