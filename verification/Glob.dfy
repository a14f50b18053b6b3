/** Glob patterns as the agent's allowlist understands them (the pattern language of Go's filepath.Match). */
module Glob {
  import opened Wrappers
  import opened Text

  datatype Token =
    | Literal(c: char)
    | AnyChar                                            // '?': one character, not the separator
    | Star                                               // '*': any run without a separator
    | Class(negated: bool, ranges: seq<(char, char)>)    // '[...]'

  // One possibly escaped range end; a class must go on after it.
  function RangeEnd(s: string): (r: Option<(char, string)>)
    ensures r.Some? ==> 0 < |r.value.1| < |s|
  {
    if s == "" || s[0] == '-' || s[0] == ']' then None
    else
      var t := if s[0] == '\\' then s[1..] else s;
      if |t| < 2 then None else Some((t[0], t[1..]))
  }

  function ParseRanges(s: string, acc: seq<(char, char)>): (r: Option<(seq<(char, char)>, string)>)
    ensures r.Some? ==> |r.value.1| < |s|
    decreases |s|
  {
    if s != "" && s[0] == ']' && acc != [] then Some((acc, s[1..]))
    else
      match RangeEnd(s)
      case None => None
      case Some((lo, rest)) =>
        if rest[0] == '-' then
          match RangeEnd(rest[1..])
          case None => None
          case Some((hi, tail)) => ParseRanges(tail, acc + [(lo, hi)])
        else ParseRanges(rest, acc + [(lo, lo)])
  }

  function Cons(t: Token, rest: Option<seq<Token>>): Option<seq<Token>> {
    match rest
    case None => None
    case Some(ts) => Some([t] + ts)
  }

  /** The tokens of a pattern; None for a malformed one. */
  function Parse(p: string): Option<seq<Token>>
    decreases |p|
  {
    if p == "" then Some([])
    else if p[0] == '*' then Cons(Star, Parse(p[1..]))
    else if p[0] == '?' then Cons(AnyChar, Parse(p[1..]))
    else if p[0] == '\\' then (if |p| < 2 then None else Cons(Literal(p[1]), Parse(p[2..])))
    else if p[0] == '[' then
      var negated := |p| > 1 && p[1] == '^';
      match ParseRanges(if negated then p[2..] else p[1..], [])
      case None => None
      case Some((ranges, rest)) => Cons(Class(negated, ranges), Parse(rest))
    else Cons(Literal(p[0]), Parse(p[1..]))
  }

  predicate InRanges(ranges: seq<(char, char)>, c: char) {
    exists i :: 0 <= i < |ranges| && ranges[i].0 <= c <= ranges[i].1
  }

  /** A single character matched by a single-character token. */
  predicate Accepts(t: Token, c: char)
    requires !t.Star?
  {
    match t
    case Literal(d) => c == d
    case AnyChar => c != '/'
    case Class(negated, ranges) => InRanges(ranges, c) != negated
  }

  predicate Matches(ts: seq<Token>, name: string)
    decreases |ts| + |name|
  {
    if ts == [] then name == ""
    else if ts[0].Star? then
      Matches(ts[1..], name) || (name != "" && name[0] != '/' && Matches(ts, name[1..]))
    else name != "" && Accepts(ts[0], name[0]) && Matches(ts[1..], name[1..])
  }

  // ---- Matching component by component ----

  /** No character class of the pattern contains the separator. */
  predicate SlashSafe(ts: seq<Token>) {
    forall i :: 0 <= i < |ts| && ts[i].Class? ==> !Accepts(ts[i], '/')
  }

  function FindSlash(ts: seq<Token>): (i: nat)
    ensures i <= |ts| && (i < |ts| ==> ts[i] == Literal('/'))
    ensures forall j :: 0 <= j < i ==> ts[j] != Literal('/')
  {
    if ts == [] || ts[0] == Literal('/') then 0 else 1 + FindSlash(ts[1..])
  }

  function Components(ts: seq<Token>): (r: seq<seq<Token>>)
    ensures |r| > 0
  {
    var i := FindSlash(ts);
    if i == |ts| then [ts] else [ts[..i]] + Components(ts[i + 1..])
  }

  /** A pattern without a separator only matches names without one. */
  lemma {:induction false} MatchesNoSlash(ts: seq<Token>, name: string)
    requires SlashSafe(ts) && Literal('/') !in ts && Matches(ts, name)
    ensures '/' !in name
    decreases |ts| + |name|
  {
    if ts != [] {
      assert ts[0] in ts && forall t :: t in ts[1..] ==> t in ts;
      if ts[0].Star? && Matches(ts[1..], name) {
        MatchesNoSlash(ts[1..], name);
      } else {
        assert name == [name[0]] + name[1..];
        MatchesNoSlash(if ts[0].Star? then ts else ts[1..], name[1..]);
      }
    }
  }

  /** A separator in the pattern lines up with the first separator of the name. */
  lemma {:induction false} MatchesAtSlash(a: seq<Token>, b: seq<Token>, name: string)
    requires SlashSafe(a) && Literal('/') !in a
    ensures var i := Find(name, '/');
            Matches(a + [Literal('/')] + b, name) <==>
              i < |name| && Matches(a, name[..i]) && Matches(b, name[i + 1..])
    decreases |a| + |name|
  {
    var all := a + [Literal('/')] + b;
    var i := Find(name, '/');
    if a == [] {
      assert all[1..] == b;
    } else {
      assert all[0] == a[0] && all[1..] == a[1..] + [Literal('/')] + b;
      assert a[0] in a && forall t :: t in a[1..] ==> t in a;
      if a[0].Star? {
        MatchesAtSlash(a[1..], b, name);
      }
      if name != "" && name[0] != '/' {
        MatchesAtSlash(if a[0].Star? then a else a[1..], b, name[1..]);
        assert name[1..][..i - 1] == name[..i][1..];
        assert i < |name| ==> name[1..][i..] == name[i + 1..];
      }
    }
  }

  /** As many components as names, and each matches its name. */
  predicate MatchesComponents(ps: seq<seq<Token>>, names: seq<string>) {
    if ps == [] || names == [] then ps == [] && names == []
    else Matches(ps[0], names[0]) && MatchesComponents(ps[1..], names[1..])
  }

  lemma {:induction false} ComponentsLength(ps: seq<seq<Token>>, names: seq<string>)
    requires MatchesComponents(ps, names)
    ensures |ps| == |names|
    ensures forall i :: 0 <= i < |ps| ==> Matches(ps[i], names[i])
  {
    if ps != [] {
      ComponentsLength(ps[1..], names[1..]);
      assert forall i :: 0 < i < |ps| ==> ps[i] == ps[1..][i - 1] && names[i] == names[1..][i - 1];
    }
  }

  lemma ComponentsCons(p: seq<Token>, ps: seq<seq<Token>>, n: string, ns: seq<string>)
    ensures MatchesComponents([p] + ps, [n] + ns) <==> Matches(p, n) && MatchesComponents(ps, ns)
  {
    assert ([p] + ps)[1..] == ps && ([n] + ns)[1..] == ns;
  }

  lemma OneComponent(ts: seq<Token>, name: string)
    requires SlashSafe(ts) && FindSlash(ts) == |ts|
    ensures Matches(ts, name) <==> MatchesComponents([ts], Split(name, '/'))
  {
    assert Literal('/') !in ts;
    if Matches(ts, name) {
      MatchesNoSlash(ts, name);
      FindNone(name, '/');
    }
    if Find(name, '/') == |name| {
      ComponentsCons(ts, [], name, []);
      assert [ts] + [] == [ts] && [name] + [] == [name];
    } else {
      LengthsDiffer([ts], Split(name, '/'));
    }
  }

  lemma LengthsDiffer(ps: seq<seq<Token>>, names: seq<string>)
    requires |ps| != |names|
    ensures !MatchesComponents(ps, names)
  {
    if MatchesComponents(ps, names) {
      ComponentsLength(ps, names);
    }
  }

  lemma FirstComponent(a: seq<Token>, b: seq<Token>, name: string, j: nat)
    requires SlashSafe(a) && Literal('/') !in a && j == Find(name, '/') < |name|
    ensures Matches(a + [Literal('/')] + b, name) <==> Matches(a, name[..j]) && Matches(b, name[j + 1..])
    ensures MatchesComponents([a] + Components(b), Split(name, '/'))
            <==> Matches(a, name[..j]) && MatchesComponents(Components(b), Split(name[j + 1..], '/'))
  {
    MatchesAtSlash(a, b, name);
    ComponentsCons(a, Components(b), name[..j], Split(name[j + 1..], '/'));
  }

  lemma TooManyComponents(a: seq<Token>, b: seq<Token>, name: string)
    requires SlashSafe(a) && Literal('/') !in a && Find(name, '/') == |name|
    ensures !Matches(a + [Literal('/')] + b, name)
    ensures !MatchesComponents([a] + Components(b), Split(name, '/'))
  {
    MatchesAtSlash(a, b, name);
    LengthsDiffer([a] + Components(b), Split(name, '/'));
  }

  /** A pattern whose classes leave out the separator matches a path exactly when they have
      equally many components and each one matches; so a star never crosses a separator. */
  lemma {:induction false} MatchIsComponentwise(ts: seq<Token>, name: string)
    requires SlashSafe(ts)
    ensures Matches(ts, name) <==> MatchesComponents(Components(ts), Split(name, '/'))
    decreases |ts|
  {
    var i, j := FindSlash(ts), Find(name, '/');
    if i == |ts| {
      OneComponent(ts, name);
    } else {
      var a, b := ts[..i], ts[i + 1..];
      assert ts == a + [Literal('/')] + b;
      if j < |name| {
        MatchIsComponentwise(b, name[j + 1..]);
        FirstComponent(a, b, name, j);
      } else {
        TooManyComponents(a, b, name);
      }
    }
  }

  // ---- Classes that contain the separator ----

  function Separators(name: string): nat {
    if name == "" then 0 else (if name[0] == '/' then 1 else 0) + Separators(name[1..])
  }

  function SeparatorTokens(ts: seq<Token>): nat {
    if ts == [] then 0 else (if ts[0] == Literal('/') then 1 else 0) + SeparatorTokens(ts[1..])
  }

  ghost predicate Satisfiable(ts: seq<Token>) {
    forall i :: 0 <= i < |ts| && ts[i].Class? ==> exists c :: Accepts(ts[i], c)
  }

  /** A matched name with as many separators as possible; one more than the pattern for every such class. */
  lemma {:induction false} MatchWithMostSeparators(ts: seq<Token>) returns (name: string)
    requires Satisfiable(ts)
    ensures Matches(ts, name) && Separators(name) >= SeparatorTokens(ts)
    ensures !SlashSafe(ts) ==> Separators(name) > SeparatorTokens(ts)
  {
    if ts == [] {
      name := "";
    } else {
      var t := ts[0];
      assert forall i :: 0 <= i < |ts[1..]| ==> ts[1..][i] == ts[i + 1];
      var rest := MatchWithMostSeparators(ts[1..]);
      assert SlashSafe(ts[1..]) && !(t.Class? && Accepts(t, '/')) ==> SlashSafe(ts) by {
        assert forall i :: 0 < i < |ts| ==> ts[i] == ts[1..][i - 1];
      }
      if t.Star? {
        name := rest;
      } else {
        var c := MemberOf(t);
        name := [c] + rest;
        assert name[1..] == rest && name[0] == c;
        assert Separators(name) == (if c == '/' then 1 else 0) + Separators(rest);
      }
    }
  }

  /** A character a token accepts: the separator whenever it accepts that. */
  lemma MemberOf(t: Token) returns (c: char)
    requires !t.Star? && (t.Class? ==> exists d :: Accepts(t, d))
    ensures Accepts(t, c) && (Accepts(t, '/') ==> c == '/')
  {
    if Accepts(t, '/') {
      c := '/';
    } else if t.Class? {
      c :| Accepts(t, c);
    } else {
      c := if t.Literal? then t.c else 'a';
    }
  }

  lemma {:induction false} SafeMatchCountsSeparators(ts: seq<Token>, name: string)
    requires SlashSafe(ts) && Matches(ts, name)
    ensures Separators(name) == SeparatorTokens(ts)
    decreases |ts| + |name|
  {
    if ts != [] {
      if ts[0].Star? && Matches(ts[1..], name) {
        SafeMatchCountsSeparators(ts[1..], name);
      } else {
        SafeMatchCountsSeparators(if ts[0].Star? then ts else ts[1..], name[1..]);
      }
    }
  }

  /** Every path a pattern matches has exactly the pattern's own separators, if and only if
      none of its classes contains the separator. */
  lemma DepthIsFixedIff(ts: seq<Token>)
    requires Satisfiable(ts)
    ensures (forall name :: Matches(ts, name) ==> Separators(name) == SeparatorTokens(ts)) <==> SlashSafe(ts)
  {
    if SlashSafe(ts) {
      forall name | Matches(ts, name) ensures Separators(name) == SeparatorTokens(ts) {
        SafeMatchCountsSeparators(ts, name);
      }
    } else {
      var name := MatchWithMostSeparators(ts);
      assert Matches(ts, name);
    }
  }

  // ---- Patterns without special characters ----

  predicate IsMeta(c: char) {
    c == '*' || c == '?' || c == '[' || c == '\\'
  }

  predicate IsPlain(p: string) {
    forall i :: 0 <= i < |p| ==> !IsMeta(p[i])
  }

  function Literals(p: string): (r: seq<Token>)
    ensures |r| == |p|
  {
    if p == "" then [] else [Literal(p[0])] + Literals(p[1..])
  }

  /** A plain beginning stands for itself. */
  lemma {:induction false} ParsePlain(p: string, rest: string)
    requires IsPlain(p)
    ensures Parse(p + rest) == match Parse(rest) case None => None case Some(ts) => Some(Literals(p) + ts)
  {
    if p == "" {
      assert p + rest == rest;
      assert Parse(rest).Some? ==> [] + Parse(rest).value == Parse(rest).value;
    } else {
      var all := p + rest;
      assert all[0] == p[0] && all[1..] == p[1..] + rest && !IsMeta(p[0]);
      ParsePlain(p[1..], rest);
      if Parse(rest).Some? {
        assert [Literal(p[0])] + (Literals(p[1..]) + Parse(rest).value) == Literals(p) + Parse(rest).value;
      }
    }
  }

  // ---- Patterns written out ----

  // A character of a class, escaped where it would mean something else.
  function PrintMember(c: char): string {
    if c == '-' || c == ']' || c == '\\' || c == '^' then ['\\', c] else [c]
  }

  function PrintRange(r: (char, char)): string {
    if r.0 == r.1 then PrintMember(r.0) else PrintMember(r.0) + "-" + PrintMember(r.1)
  }

  function PrintRanges(rs: seq<(char, char)>): string {
    if rs == [] then "" else PrintRange(rs[0]) + PrintRanges(rs[1..])
  }

  function PrintToken(t: Token): string {
    match t
    case Literal(c) => if IsMeta(c) then ['\\', c] else [c]
    case AnyChar => "?"
    case Star => "*"
    case Class(negated, ranges) => "[" + (if negated then "^" else "") + PrintRanges(ranges) + "]"
  }

  function PrintPattern(ts: seq<Token>): string {
    if ts == [] then "" else PrintToken(ts[0]) + PrintPattern(ts[1..])
  }

  predicate NonEmptyClasses(ts: seq<Token>) {
    forall i :: 0 <= i < |ts| && ts[i].Class? ==> ts[i].ranges != []
  }

  lemma MemberReads(c: char, rest: string)
    requires rest != ""
    ensures RangeEnd(PrintMember(c) + rest) == Some((c, rest))
  {
    var s := PrintMember(c) + rest;
    if |PrintMember(c)| == 2 {
      assert s[1..] == [c] + rest && s[1..][1..] == rest;
    } else {
      assert s[0] == c && s[1..] == rest;
    }
  }

  lemma RangesStart(rs: seq<(char, char)>, tail: string)
    ensures var x := RestOf(rs, tail); x != "" && x[0] != '-' && x[0] != '^'
  {
    if rs != [] {
      assert RestOf(rs, tail)[0] == PrintMember(rs[0].0)[0];
    }
  }

  // What is left of a class behind its first range.
  function RestOf(rs: seq<(char, char)>, tail: string): string {
    PrintRanges(rs) + "]" + tail
  }

  lemma RangesText(rs: seq<(char, char)>, tail: string)
    requires rs != []
    ensures RestOf(rs, tail) == PrintRange(rs[0]) + RestOf(rs[1..], tail)
  {
    ConcatInOrder(PrintRange(rs[0]), PrintRanges(rs[1..]), "]");
    ConcatInOrder(PrintRange(rs[0]), PrintRanges(rs[1..]) + "]", tail);
  }

  lemma RangeReads(r: (char, char), rest: string, acc: seq<(char, char)>)
    requires rest != "" && rest[0] != '-'
    ensures ParseRanges(PrintRange(r) + rest, acc) == ParseRanges(rest, acc + [r])
  {
    var s := PrintRange(r) + rest;
    assert s[0] == PrintMember(r.0)[0] && s[0] != ']';
    if r.0 == r.1 {
      MemberReads(r.0, rest);
    } else {
      var more := "-" + (PrintMember(r.1) + rest);
      assert s == PrintMember(r.0) + more && more[1..] == PrintMember(r.1) + rest;
      MemberReads(r.0, more);
      MemberReads(r.1, rest);
    }
  }

  lemma {:induction false} RangesRead(rs: seq<(char, char)>, acc: seq<(char, char)>, tail: string)
    requires acc + rs != []
    ensures ParseRanges(RestOf(rs, tail), acc) == Some((acc + rs, tail))
    decreases rs
  {
    if rs == [] {
      var s := RestOf(rs, tail);
      assert s[0] == ']' && s[1..] == tail && acc + rs == acc;
    } else {
      RangesStart(rs[1..], tail);
      RangesText(rs, tail);
      RangeReads(rs[0], RestOf(rs[1..], tail), acc);
      RangesRead(rs[1..], acc + [rs[0]], tail);
      ConcatInOrder(acc, [rs[0]], rs[1..]);
      assert [rs[0]] + rs[1..] == rs;
    }
  }

  lemma PartsInOrder<T>(a: seq<T>, b: seq<T>, c: seq<T>, d: seq<T>, e: seq<T>)
    ensures a + b + c + d + e == a + (b + (c + d + e))
  {
  }

  lemma ClassOpens(sign: string, body: string)
    requires body != "" && body[0] != '^' && (sign == "" || sign == "^")
    ensures var s := "[" + (sign + body);
            && s[0] == '[' && |s| > 1 && (s[1] == '^' <==> sign == "^")
            && (if sign == "^" then s[2..] else s[1..]) == body
  {
    var s := "[" + (sign + body);
    assert s[1..] == sign + body;
    assert sign == "^" ==> s[2..] == (sign + body)[1..];
  }

  lemma ClassText(negated: bool, rs: seq<(char, char)>, tail: string)
    ensures var s := PrintToken(Class(negated, rs)) + tail;
            && s[0] == '[' && |s| > 1 && (s[1] == '^' <==> negated)
            && (if negated then s[2..] else s[1..]) == RestOf(rs, tail)
  {
    var sign := if negated then "^" else "";
    RangesStart(rs, tail);
    PartsInOrder("[", sign, PrintRanges(rs), "]", tail);
    ClassOpens(sign, RestOf(rs, tail));
  }

  lemma TokenReads(t: Token, tail: string)
    requires t.Class? ==> t.ranges != []
    ensures Parse(PrintToken(t) + tail) == Cons(t, Parse(tail))
  {
    var s := PrintToken(t) + tail;
    match t
    case Literal(c) =>
      if IsMeta(c) {
        assert s[0] == '\\' && s[1] == c && s[2..] == tail;
      } else {
        assert s[0] == c && s[1..] == tail;
      }
    case AnyChar => assert s[0] == '?' && s[1..] == tail;
    case Star => assert s[0] == '*' && s[1..] == tail;
    case Class(negated, rs) =>
      ClassText(negated, rs, tail);
      RangesRead(rs, [], tail);
      assert [] + rs == rs;
  }

  /** Every list of tokens can be written as a pattern that is read as itself: plain and
      escaped characters, wildcards, and classes of single characters and ranges. */
  lemma {:induction false} PatternRoundTrip(ts: seq<Token>)
    requires NonEmptyClasses(ts)
    ensures Parse(PrintPattern(ts)) == Some(ts)
  {
    if ts != [] {
      assert NonEmptyClasses(ts[1..]);
      TokenReads(ts[0], PrintPattern(ts[1..]));
      PatternRoundTrip(ts[1..]);
      assert [ts[0]] + ts[1..] == ts;
    }
  }

  lemma {:induction false} AfterPattern(ts: seq<Token>, bad: string)
    requires NonEmptyClasses(ts) && Parse(bad) == None
    ensures Parse(PrintPattern(ts) + bad) == None
  {
    if ts == [] {
      assert PrintPattern(ts) + bad == bad;
    } else {
      assert NonEmptyClasses(ts[1..]);
      ConcatInOrder(PrintToken(ts[0]), PrintPattern(ts[1..]), bad);
      TokenReads(ts[0], PrintPattern(ts[1..]) + bad);
      AfterPattern(ts[1..], bad);
    }
  }

  /** A backslash at the end, an empty class or one that is never opened properly makes a
      pattern malformed, whatever stands before it. */
  lemma MalformedEnds(ts: seq<Token>, rest: string)
    requires NonEmptyClasses(ts)
    ensures Parse(PrintPattern(ts) + "\\") == None
    ensures Parse(PrintPattern(ts) + "[") == None
    ensures Parse(PrintPattern(ts) + ("[]" + rest)) == None
    ensures Parse(PrintPattern(ts) + ("[-" + rest)) == None
  {
    AfterPattern(ts, "\\");
    assert "["[1..] == "";
    AfterPattern(ts, "[");
    assert ("[]" + rest)[1..] == "]" + rest && ("[-" + rest)[1..] == "-" + rest;
    AfterPattern(ts, "[]" + rest);
    AfterPattern(ts, "[-" + rest);
  }

  /** A class holds the characters of its ranges, both ends included; a negated one all
      others. */
  lemma ClassMeaning(ranges: seq<(char, char)>, c: char)
    ensures Accepts(Class(false, ranges), c)
            <==> exists r :: r in ranges && r.0 as int <= c as int <= r.1 as int
    ensures Accepts(Class(true, ranges), c) <==> !Accepts(Class(false, ranges), c)
  {
    if r :| r in ranges && r.0 as int <= c as int <= r.1 as int {
      var i :| 0 <= i < |ranges| && ranges[i] == r;
      assert ranges[i].0 <= c <= ranges[i].1;
    }
  }

  lemma {:induction false} LiteralsSafe(p: string)
    ensures SlashSafe(Literals(p))
  {
    if p != "" {
      LiteralsSafe(p[1..]);
    }
  }

  lemma {:induction false} LiteralsMatch(p: string, ts: seq<Token>, name: string)
    ensures Matches(Literals(p) + ts, name) <==> p <= name && Matches(ts, name[|p|..])
  {
    var all := Literals(p) + ts;
    if p == "" {
      assert all == ts && name[0..] == name;
    } else {
      assert all[0] == Literal(p[0]) && all[1..] == Literals(p[1..]) + ts;
      if name != "" && name[0] == p[0] {
        LiteralsMatch(p[1..], ts, name[1..]);
        assert |p| <= |name| ==> name[1..][|p| - 1..] == name[|p|..];
        assert p <= name <==> p[1..] <= name[1..] by {
          assert p == [p[0]] + p[1..] && name == [name[0]] + name[1..];
        }
      }
    }
  }

  /** A plain pattern matches itself and nothing else. */
  lemma PlainMatchesItself(p: string, name: string)
    requires IsPlain(p)
    ensures Parse(p).Some? && (Matches(Parse(p).value, name) <==> name == p)
  {
    assert p + "" == p && Literals(p) + [] == Literals(p);
    ParsePlain(p, "");
    LiteralsMatch(p, [], name);
  }

  // What the shortest match of a pattern looks like next to the pattern itself.
  ghost predicate SampleOf(p: string, name: string) {
    && |name| <= |p|
    && (|name| == |p| ==> forall i :: 0 <= i < |p| ==>
          p[i] != '*' && p[i] != '[' && p[i] != '\\' && (p[i] == '?' ==> name[i] == 'a'))
  }

  lemma SampleCons(p: string, c: char, rest: string, tail: string)
    requires 0 < |p| - |rest| && SampleOf(rest, tail)
    requires |rest| == |p| - 1 ==> rest == p[1..] && p[0] != '*' && p[0] != '[' && p[0] != '\\' && (p[0] == '?' ==> c == 'a')
    ensures SampleOf(p, [c] + tail)
  {
    var name := [c] + tail;
    if |name| == |p| {
      assert forall i :: 0 < i < |p| ==> p[i] == rest[i - 1] && name[i] == tail[i - 1];
    }
  }

  lemma TailSatisfiable(t: Token, ts: seq<Token>)
    requires Satisfiable([t] + ts)
    ensures Satisfiable(ts)
    ensures t.Class? ==> exists c :: Accepts(t, c)
  {
    var all := [t] + ts;
    assert all[0] == t && forall i :: 0 <= i < |ts| ==> ts[i] == all[i + 1];
  }

  lemma MatchCons(t: Token, ts: seq<Token>, c: char, name: string)
    requires !t.Star? && Accepts(t, c) && Matches(ts, name)
    ensures Matches([t] + ts, [c] + name)
  {
    assert ([t] + ts)[1..] == ts && ([c] + name)[1..] == name;
  }

  lemma StarEmpty(ts: seq<Token>, name: string)
    requires Matches(ts, name)
    ensures Matches([Star] + ts, name)
  {
    assert ([Star] + ts)[1..] == ts;
  }

  /** Every well-formed pattern with satisfiable classes matches a name no longer than itself,
      shorter if it has a star, a class or an escape, and different where it has a '?'. */
  lemma {:induction false} Sample(p: string) returns (name: string)
    requires Parse(p).Some? && Satisfiable(Parse(p).value)
    ensures Matches(Parse(p).value, name) && SampleOf(p, name)
    decreases |p|, 1
  {
    if p == "" {
      name := "";
    } else if p[0] == '*' {
      TailSatisfiable(Star, Parse(p[1..]).value);
      name := Sample(p[1..]);
      StarEmpty(Parse(p[1..]).value, name);
    } else if p[0] == '?' {
      name := SampleStep(p, AnyChar, 'a', p[1..]);
    } else if p[0] == '\\' {
      name := SampleStep(p, Literal(p[1]), p[1], p[2..]);
    } else if p[0] == '[' {
      var negated := |p| > 1 && p[1] == '^';
      var r := ParseRanges(if negated then p[2..] else p[1..], []).value;
      var t := Class(negated, r.0);
      TailSatisfiable(t, Parse(r.1).value);
      var c :| Accepts(t, c);
      name := SampleStep(p, t, c, r.1);
    } else {
      name := SampleStep(p, Literal(p[0]), p[0], p[1..]);
    }
  }

  lemma {:induction false} SampleStep(p: string, t: Token, c: char, rest: string) returns (name: string)
    requires |rest| < |p| && !t.Star? && Accepts(t, c)
    requires Parse(rest).Some? && Parse(p) == Some([t] + Parse(rest).value) && Satisfiable(Parse(p).value)
    requires |rest| == |p| - 1 ==> rest == p[1..] && p[0] != '*' && p[0] != '[' && p[0] != '\\' && (p[0] == '?' ==> c == 'a')
    ensures Matches(Parse(p).value, name) && SampleOf(p, name)
    decreases |p|, 0
  {
    TailSatisfiable(t, Parse(rest).value);
    var tail := Sample(rest);
    MatchCons(t, Parse(rest).value, c, tail);
    SampleCons(p, c, rest, tail);
    name := [c] + tail;
  }

  // ---- The search of the library ----

  function FindStar(ts: seq<Token>): (i: nat)
    ensures i <= |ts| && (i < |ts| ==> ts[i].Star?)
    ensures forall j :: 0 <= j < i ==> !ts[j].Star?
  {
    if ts == [] || ts[0].Star? then 0 else 1 + FindStar(ts[1..])
  }

  function SkipStars(ts: seq<Token>): (r: seq<Token>)
    ensures |r| <= |ts| && (r != [] ==> !r[0].Star?)
    ensures ts != [] && ts[0].Star? ==> |r| < |ts|
  {
    if ts != [] && ts[0].Star? then SkipStars(ts[1..]) else ts
  }

  /** matchChunk: a star-free piece at the start of the name; the rest of the name. */
  function MatchChunk(chunk: seq<Token>, name: string): Option<string> {
    if chunk == [] then Some(name)
    else if !chunk[0].Star? && name != "" && Accepts(chunk[0], name[0]) then MatchChunk(chunk[1..], name[1..])
    else None
  }

  /** The first place for a chunk, after a star the leftmost one it can be moved to; the last
      chunk of a pattern must also use up the name. */
  function Place(chunk: seq<Token>, name: string, last: bool, star: bool): Option<string> {
    var t := MatchChunk(chunk, name);
    if t.Some? && (t.value == "" || !last) then t
    else if star && name != "" && name[0] != '/' then Place(chunk, name[1..], last, star)
    else None
  }

  /** filepath.Match: chunk by chunk, each at its first place, never reconsidered. */
  predicate LeftmostMatch(ts: seq<Token>, name: string)
    decreases |ts|
  {
    if ts == [] then name == ""
    else
      var star, body := ts[0].Star?, SkipStars(ts);
      var n := FindStar(body);
      if body == [] then '/' !in name
      else
        match Place(body[..n], name, n == |body|, star)
        case None => false
        case Some(t) => LeftmostMatch(body[n..], t)
  }

  lemma {:induction false} ChunkSplits(chunk: seq<Token>, rest: seq<Token>, name: string)
    requires forall i :: 0 <= i < |chunk| ==> !chunk[i].Star?
    ensures Matches(chunk + rest, name)
            <==> MatchChunk(chunk, name).Some? && Matches(rest, MatchChunk(chunk, name).value)
    decreases |chunk|
  {
    if chunk == [] {
      assert chunk + rest == rest;
    } else {
      assert (chunk + rest)[1..] == chunk[1..] + rest;
      if name != "" {
        ChunkSplits(chunk[1..], rest, name[1..]);
      }
    }
  }

  lemma {:induction false} ChunkLength(chunk: seq<Token>, name: string)
    requires MatchChunk(chunk, name).Some?
    ensures |chunk| <= |name| && MatchChunk(chunk, name).value == name[|chunk|..]
    ensures forall k :: 0 <= k < |chunk| ==> !chunk[k].Star? && Accepts(chunk[k], name[k])
    decreases |chunk|
  {
    if chunk != [] {
      ChunkLength(chunk[1..], name[1..]);
      assert name[1..][|chunk| - 1..] == name[|chunk|..];
      assert forall k :: 0 < k < |chunk| ==> chunk[k] == chunk[1..][k - 1] && name[k] == name[1..][k - 1];
    }
  }

  // Stars in a row match what one star matches.
  lemma {:induction false} DoubleStar(ts: seq<Token>, name: string)
    ensures Matches([Star, Star] + ts, name) <==> Matches([Star] + ts, name)
    decreases |name|
  {
    var two, one := [Star, Star] + ts, [Star] + ts;
    assert two[1..] == one && one[1..] == ts;
    if name != "" {
      DoubleStar(ts, name[1..]);
    }
  }

  lemma {:induction false} LeadingStars(ts: seq<Token>, name: string)
    requires ts != [] && ts[0].Star?
    ensures Matches(ts, name) <==> Matches([Star] + SkipStars(ts), name)
    decreases |ts|
  {
    var rest := ts[1..];
    assert ts == [Star] + rest;
    if rest != [] && rest[0].Star? {
      LeadingStars(rest, name);
      assert rest == [Star] + rest[1..] && ts == [Star, Star] + rest[1..];
      DoubleStar(rest[1..], name);
    }
  }

  lemma {:induction false} StarAlone(name: string)
    ensures Matches([Star], name) <==> '/' !in name
  {
    if name != "" {
      StarAlone(name[1..]);
      assert name == [name[0]] + name[1..];
      assert Matches([Star][1..], name) <==> name == "";
    }
  }

  // A star takes in any run without a separator.
  lemma {:induction false} StarAbsorbs(rest: seq<Token>, name: string, k: nat)
    requires rest != [] && rest[0].Star? && k <= |name|
    requires (forall i :: 0 <= i < k ==> name[i] != '/') && Matches(rest, name[k..])
    ensures Matches(rest, name)
    decreases k
  {
    if k > 0 {
      assert name[1..][k - 1..] == name[k..];
      StarAbsorbs(rest, name[1..], k - 1);
    } else {
      assert name[0..] == name;
    }
  }

  /** Whatever the search accepts, the pattern matches. */
  lemma {:induction false} PlaceSound(chunk: seq<Token>, rest: seq<Token>, name: string, star: bool)
    requires forall i :: 0 <= i < |chunk| ==> !chunk[i].Star?
    requires Place(chunk, name, rest == [], star).Some? && Matches(rest, Place(chunk, name, rest == [], star).value)
    ensures Matches(if star then [Star] + (chunk + rest) else chunk + rest, name)
    decreases |name|
  {
    var t := MatchChunk(chunk, name);
    ChunkSplits(chunk, rest, name);
    var ts := [Star] + (chunk + rest);
    assert ts[1..] == chunk + rest;
    if !(t.Some? && (t.value == "" || rest != [])) {
      PlaceSound(chunk, rest, name[1..], star);
    }
  }

  lemma BodyParts(ts: seq<Token>)
    requires ts != [] && SkipStars(ts) != []
    ensures var body := SkipStars(ts);
            var n := FindStar(body);
            n > 0 && body == body[..n] + body[n..] && (n == |body| <==> body[n..] == [])
            && |body[n..]| < |ts| && forall i :: 0 <= i < n ==> !body[..n][i].Star?
  {
  }

  lemma {:induction false} LeftmostIsSound(ts: seq<Token>, name: string)
    requires LeftmostMatch(ts, name)
    ensures Matches(ts, name)
    decreases |ts|
  {
    if ts != [] {
      var body := SkipStars(ts);
      var n := FindStar(body);
      if body == [] {
        LeadingStars(ts, name);
        StarAlone(name);
        assert [Star] + [] == [Star];
      } else {
        BodyParts(ts);
        LeftmostIsSound(body[n..], Place(body[..n], name, n == |body|, ts[0].Star?).value);
        PlaceSound(body[..n], body[n..], name, ts[0].Star?);
        if ts[0].Star? {
          LeadingStars(ts, name);
        }
      }
    }
  }

  // In a piece whose classes leave out the separator, separators sit where the piece has them.
  lemma ChunkSlashes(chunk: seq<Token>, name: string, k: nat)
    requires SlashSafe(chunk) && MatchChunk(chunk, name).Some? && k < |chunk|
    ensures k < |name| && (name[k] == '/' <==> chunk[k] == Literal('/'))
  {
    ChunkLength(chunk, name);
  }

  // A chunk that fits both at the start and after a run without separators has none itself.
  lemma {:induction false} NoSlashInBoth(chunk: seq<Token>, name: string, j: nat, k: nat)
    requires SlashSafe(chunk) && 0 < j <= |name| && forall i :: 0 <= i < j ==> name[i] != '/'
    requires MatchChunk(chunk, name).Some? && MatchChunk(chunk, name[j..]).Some? && k < |chunk|
    ensures chunk[k] != Literal('/')
    decreases k
  {
    ChunkSlashes(chunk, name, k);
    if k >= j {
      NoSlashInBoth(chunk, name, j, k - j);
      ChunkSlashes(chunk, name[j..], k - j);
      assert name[j..][k - j] == name[k];
    }
  }

  lemma LaterFitIsNear(chunk: seq<Token>, name: string, j: nat)
    requires SlashSafe(chunk) && 0 < j <= |name| && forall i :: 0 <= i < j ==> name[i] != '/'
    requires MatchChunk(chunk, name).Some? && MatchChunk(chunk, name[j..]).Some?
    ensures j + |chunk| <= |name| && forall i :: 0 <= i < j + |chunk| ==> name[i] != '/'
  {
    ChunkLength(chunk, name[j..]);
    forall i | j <= i < j + |chunk| ensures name[i] != '/' {
      NoSlashInBoth(chunk, name, j, i - j);
      ChunkSlashes(chunk, name[j..], i - j);
      assert name[j..][i - j] == name[i];
    }
  }

  // Where a star and what follows it can match.
  lemma {:induction false} StarReaches(ts: seq<Token>, name: string) returns (j: nat)
    requires Matches([Star] + ts, name)
    ensures j <= |name| && (forall i :: 0 <= i < j ==> name[i] != '/') && Matches(ts, name[j..])
    decreases |name|
  {
    assert ([Star] + ts)[1..] == ts;
    if Matches(ts, name) {
      j := 0;
      assert name[0..] == name;
    } else {
      var k := StarReaches(ts, name[1..]);
      j := k + 1;
      assert name[1..][k..] == name[j..];
      assert forall i :: 0 < i < j ==> name[i] == name[1..][i - 1];
    }
  }

  // The leftmost place of a chunk is as good as any other when a star follows.
  lemma FirstFitIsGood(chunk: seq<Token>, rest: seq<Token>, name: string)
    requires SlashSafe(chunk) && (forall i :: 0 <= i < |chunk| ==> !chunk[i].Star?)
    requires rest != [] && rest[0].Star? && Matches([Star] + (chunk + rest), name) && MatchChunk(chunk, name).Some?
    ensures Matches(rest, MatchChunk(chunk, name).value)
  {
    var j := StarReaches(chunk + rest, name);
    ChunkSplits(chunk, rest, name[j..]);
    ChunkLength(chunk, name);
    ChunkLength(chunk, name[j..]);
    if j == 0 {
      assert name[0..] == name;
    } else {
      LaterFitIsNear(chunk, name, j);
      var t := name[|chunk|..];
      assert name[j..][|chunk|..] == name[j + |chunk|..] == t[j..];
      StarAbsorbs(rest, t, j);
    }
  }

  lemma {:induction false} PlaceComplete(chunk: seq<Token>, rest: seq<Token>, name: string)
    requires SlashSafe(chunk) && (forall i :: 0 <= i < |chunk| ==> !chunk[i].Star?)
    requires rest == [] || rest[0].Star?
    requires Matches([Star] + (chunk + rest), name)
    ensures var p := Place(chunk, name, rest == [], true); p.Some? && Matches(rest, p.value)
    decreases |name|
  {
    var t := MatchChunk(chunk, name);
    var ts := [Star] + (chunk + rest);
    assert ts[1..] == chunk + rest;
    ChunkSplits(chunk, rest, name);
    if t.Some? && (t.value == "" || rest != []) {
      if rest != [] {
        FirstFitIsGood(chunk, rest, name);
      }
    } else {
      PlaceComplete(chunk, rest, name[1..]);
    }
  }

  lemma PlaceHere(chunk: seq<Token>, rest: seq<Token>, name: string)
    requires (forall i :: 0 <= i < |chunk| ==> !chunk[i].Star?) && Matches(chunk + rest, name)
    ensures var p := Place(chunk, name, rest == [], false); p.Some? && Matches(rest, p.value)
  {
    ChunkSplits(chunk, rest, name);
  }

  /** On patterns whose classes leave out the separator the search finds every match there is. */
  lemma {:induction false} LeftmostIsMatch(ts: seq<Token>, name: string)
    requires SlashSafe(ts)
    ensures LeftmostMatch(ts, name) <==> Matches(ts, name)
    decreases |ts|
  {
    if LeftmostMatch(ts, name) {
      LeftmostIsSound(ts, name);
    }
    if ts != [] && Matches(ts, name) {
      var body := SkipStars(ts);
      var n := FindStar(body);
      SkippedIsSafe(ts);
      if ts[0].Star? {
        LeadingStars(ts, name);
      }
      if body == [] {
        StarAlone(name);
        assert [Star] + [] == [Star];
      } else {
        BodyParts(ts);
        if ts[0].Star? {
          PlaceComplete(body[..n], body[n..], name);
        } else {
          PlaceHere(body[..n], body[n..], name);
        }
        LeftmostIsMatch(body[n..], Place(body[..n], name, n == |body|, ts[0].Star?).value);
      }
    }
  }

  lemma {:induction false} SkippedIsSafe(ts: seq<Token>)
    requires SlashSafe(ts)
    ensures SlashSafe(SkipStars(ts))
  {
    if ts != [] && ts[0].Star? {
      SkippedIsSafe(ts[1..]);
    }
  }

  /** A class with the separator in it: a match that the search misses, because it puts the
      class at its first place. */
  lemma SearchMissesMatch()
    ensures var ts := [Star, Class(false, [('a', 'a'), ('/', '/')]), Star, Literal('c')];
            Matches(ts, "ba/c") && !LeftmostMatch(ts, "ba/c")
  {
    var cls := Class(false, [('a', 'a'), ('/', '/')]);
    var ts := [Star, cls, Star, Literal('c')];
    MissedMatch(cls);
    MissedSearch(cls);
  }

  lemma ClassMembers(cls: Token)
    requires cls == Class(false, [('a', 'a'), ('/', '/')])
    ensures Accepts(cls, 'a') && Accepts(cls, '/') && !Accepts(cls, 'b')
  {
    assert cls.ranges[0] == ('a', 'a') && cls.ranges[1] == ('/', '/');
  }

  lemma MissedMatch(cls: Token)
    requires cls == Class(false, [('a', 'a'), ('/', '/')])
    ensures Matches([Star, cls, Star, Literal('c')], "ba/c")
  {
    ClassMembers(cls);
    var ts := [Star, cls, Star, Literal('c')];
    var rest := [Star, Literal('c')];
    assert rest[1..] == [Literal('c')] && "c"[1..] == "" && [Literal('c')][1..] == [];
    assert Matches([Literal('c')], "c");
    assert Matches(rest, "c");
    assert ts[1..] == [cls] + rest && ([cls] + rest)[1..] == rest && "/c"[1..] == "c";
    assert Matches(ts[1..], "/c");
    assert Matches(ts, "/c");
    assert "a/c"[1..] == "/c" && "ba/c"[1..] == "a/c";
    assert Matches(ts, "a/c");
  }

  lemma MissedSearch(cls: Token)
    requires cls == Class(false, [('a', 'a'), ('/', '/')])
    ensures !LeftmostMatch([Star, cls, Star, Literal('c')], "ba/c")
  {
    ClassMembers(cls);
    var ts := [Star, cls, Star, Literal('c')];
    var body := ts[1..];
    assert SkipStars(ts) == body;
    assert FindStar(body) == 1 && body[..1] == [cls] && body[1..] == [Star, Literal('c')];
    assert "ba/c"[1..] == "a/c" && "a/c"[1..] == "/c";
    assert MatchChunk([cls], "ba/c") == None;
    assert MatchChunk([cls], "a/c") == Some("/c");
    assert Place([cls], "ba/c", false, true) == Some("/c");
    var rest := [Star, Literal('c')];
    assert rest[1..] == [Literal('c')] && SkipStars(rest) == [Literal('c')];
    assert FindStar([Literal('c')]) == 1 && [Literal('c')][..1] == [Literal('c')];
    assert MatchChunk([Literal('c')], "/c") == None;
    assert Place([Literal('c')], "/c", true, true) == None;
  }
}
