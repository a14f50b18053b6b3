/** Optional results: `None` stands for the source's None, exception or error return. */
module Wrappers {
  datatype Option<+T> = None | Some(value: T)
}

/** The string operations the backend relies on: strip, split, join and line splitting. */
module Text {

  // str.strip() on the ASCII whitespace characters.
  predicate IsSpace(c: char) {
    c == ' ' || c == '\t' || c == '\n' || c == '\r' || c == '\U{000B}' || c == '\U{000C}'
  }

  // Blank, tab, line feed, vertical tab, form feed, carriage return.
  lemma SpaceCodes(c: char)
    ensures IsSpace(c) <==> c as int == 32 || 9 <= c as int <= 13
  {
  }

  function LStrip(s: string): string {
    if s != "" && IsSpace(s[0]) then LStrip(s[1..]) else s
  }

  function RStrip(s: string): string {
    if s != "" && IsSpace(s[|s| - 1]) then RStrip(s[..|s| - 1]) else s
  }

  function Strip(s: string): string {
    RStrip(LStrip(s))
  }

  predicate Trimmed(s: string) {
    s != "" ==> !IsSpace(s[0]) && !IsSpace(s[|s| - 1])
  }

  predicate OccursAt(s: string, i: nat, sub: string) {
    i + |sub| <= |s| && s[i..i + |sub|] == sub
  }

  predicate Contains(s: string, sub: string) {
    exists i :: 0 <= i <= |s| && OccursAt(s, i, sub)
  }

  predicate EndsWith(s: string, suffix: string) {
    |suffix| <= |s| && s[|s| - |suffix|..] == suffix
  }

  /** Position of the first occurrence of `c`, or the length when there is none. */
  function Find(s: string, c: char): (i: nat)
    ensures i <= |s| && (i < |s| ==> s[i] == c)
    ensures forall j :: 0 <= j < i ==> s[j] != c
  {
    if s == "" || s[0] == c then 0 else 1 + Find(s[1..], c)
  }

  function Split(s: string, c: char): (parts: seq<string>)
    ensures |parts| > 0
  {
    var i := Find(s, c);
    if i == |s| then [s] else [s[..i]] + Split(s[i + 1..], c)
  }

  function Join(parts: seq<string>, sep: string): string {
    if parts == [] then ""
    else if |parts| == 1 then parts[0]
    else parts[0] + sep + Join(parts[1..], sep)
  }

  /** str.splitlines() for newline-terminated text. */
  function Lines(s: string): seq<string> {
    if s == "" then []
    else
      var i := Find(s, '\n');
      if i == |s| then [s] else [s[..i]] + Lines(s[i + 1..])
  }

  lemma ConcatInOrder<T>(a: seq<T>, b: seq<T>, c: seq<T>)
    ensures a + b + c == a + (b + c)
  {
  }

  lemma FindAt(a: string, c: char, b: string)
    requires c !in a
    ensures Find(a + [c] + b, c) == |a|
  {
    var s := a + [c] + b;
    assert s[|a|] == c;
    assert forall j :: 0 <= j < |a| ==> s[j] == a[j] && a[j] in a;
  }

  lemma FindNone(s: string, c: char)
    requires c !in s
    ensures Find(s, c) == |s|
  {
    assert forall j :: 0 <= j < |s| ==> s[j] in s;
  }

  lemma SplitAt(a: string, c: char, b: string)
    requires c !in a
    ensures Split(a + [c] + b, c) == [a] + Split(b, c)
  {
    var s := a + [c] + b;
    FindAt(a, c, b);
    assert s[..|a|] == a && s[|a| + 1..] == b;
  }

  lemma {:induction false} SplitJoin(parts: seq<string>, c: char)
    requires parts != [] && forall p :: p in parts ==> c !in p
    ensures Split(Join(parts, [c]), c) == parts
  {
    if |parts| == 1 {
      FindNone(parts[0], c);
    } else {
      SplitAt(parts[0], c, Join(parts[1..], [c]));
      SplitJoin(parts[1..], c);
    }
  }

  lemma JoinCons(a: string, rest: seq<string>, sep: string)
    requires rest != []
    ensures Join([a] + rest, sep) == a + sep + Join(rest, sep)
  {
    assert ([a] + rest)[1..] == rest;
  }

  lemma {:induction false} JoinSplit(s: string, c: char)
    ensures Join(Split(s, c), [c]) == s
  {
    var i := Find(s, c);
    if i < |s| {
      var rest := s[i + 1..];
      JoinSplit(rest, c);
      JoinCons(s[..i], Split(rest, c), [c]);
      assert s == s[..i] + [c] + rest;
    }
  }

  lemma {:induction false} SplitPieces(s: string, c: char)
    ensures forall p :: p in Split(s, c) ==> c !in p
    ensures forall p, x :: p in Split(s, c) && x in p ==> x in s
  {
    var i := Find(s, c);
    if i < |s| {
      SplitPieces(s[i + 1..], c);
    }
  }

  lemma LinesAt(a: string, b: string)
    requires '\n' !in a
    ensures Lines(a + "\n" + b) == [a] + Lines(b)
  {
    var s := a + ['\n'] + b;
    FindAt(a, '\n', b);
    assert s[..|a|] == a && s[|a| + 1..] == b;
    assert a + "\n" + b == s;
  }

  /** Newline-terminated lines split back into themselves. */
  lemma {:induction false} LinesJoin(ls: seq<string>)
    requires ls != [] && forall l :: l in ls ==> '\n' !in l
    ensures Lines(Join(ls, "\n") + "\n") == ls
  {
    var all := Join(ls, "\n") + "\n";
    if |ls| == 1 {
      assert all == ls[0] + "\n" + "";
      LinesAt(ls[0], "");
    } else {
      var rest := Join(ls[1..], "\n") + "\n";
      LinesJoin(ls[1..]);
      assert all == ls[0] + "\n" + rest;
      LinesAt(ls[0], rest);
      assert [ls[0]] + ls[1..] == ls;
    }
  }

  /** So do lines separated by newlines when the last one is not empty. */
  lemma {:induction false} LinesJoinOpen(ls: seq<string>)
    requires ls != [] && forall l :: l in ls ==> '\n' !in l
    requires ls[|ls| - 1] != ""
    ensures Lines(Join(ls, "\n")) == ls
  {
    if |ls| == 1 {
      FindNone(ls[0], '\n');
    } else {
      var rest := Join(ls[1..], "\n");
      LinesJoinOpen(ls[1..]);
      assert Join(ls, "\n") == ls[0] + "\n" + rest;
      LinesAt(ls[0], rest);
      assert Lines(ls[0] + "\n" + rest) == [ls[0]] + ls[1..];
      assert [ls[0]] + ls[1..] == ls;
    }
  }

  lemma FindFirst(s: string, c: char)
    ensures c !in s[..Find(s, c)]
  {
  }

  lemma {:induction false} FoundBefore(s: string, c: char)
    ensures c in s <==> Find(s, c) < |s|
  {
    if s != "" && s[0] != c {
      FoundBefore(s[1..], c);
    }
  }

  lemma CutAt<T>(s: seq<T>, i: nat)
    requires i < |s|
    ensures s == s[..i] + [s[i]] + s[i + 1..]
  {
  }

  lemma FindDivides(s: string, c: char)
    requires c in s
    ensures var i := Find(s, c); i < |s| && s == s[..i] + [c] + s[i + 1..] && c !in s[..i]
  {
    FoundBefore(s, c);
    FindFirst(s, c);
    CutAt(s, Find(s, c));
  }

  lemma {:induction false} LinesPieces(s: string)
    ensures forall l :: l in Lines(s) ==> '\n' !in l
  {
    if s != "" {
      var i := Find(s, '\n');
      FindFirst(s, '\n');
      if i == |s| {
        assert s[..i] == s;
      } else {
        LinesPieces(s[i + 1..]);
        assert forall l :: l in Lines(s) ==> l == s[..i] || l in Lines(s[i + 1..]);
      }
    }
  }

  ghost predicate AllSpace(s: string) {
    forall i :: 0 <= i < |s| ==> IsSpace(s[i])
  }

  lemma {:induction false} LStripPart(s: string) returns (a: string)
    ensures AllSpace(a) && s == a + LStrip(s)
  {
    a := "";
    if s != "" && IsSpace(s[0]) {
      var more := LStripPart(s[1..]);
      a := [s[0]] + more;
      assert s == [s[0]] + s[1..];
    }
  }

  lemma {:induction false} RStripPart(s: string) returns (b: string)
    ensures AllSpace(b) && s == RStrip(s) + b
  {
    b := "";
    if s != "" && IsSpace(s[|s| - 1]) {
      var more := RStripPart(s[..|s| - 1]);
      b := more + [s[|s| - 1]];
      assert s == s[..|s| - 1] + [s[|s| - 1]];
    }
  }

  lemma {:induction false} LStripStarts(s: string)
    ensures LStrip(s) == "" || !IsSpace(LStrip(s)[0])
  {
    if s != "" && IsSpace(s[0]) {
      LStripStarts(s[1..]);
    }
  }

  lemma {:induction false} RStripEnds(s: string)
    ensures RStrip(s) == "" || !IsSpace(RStrip(s)[|RStrip(s)| - 1])
  {
    if s != "" && IsSpace(s[|s| - 1]) {
      RStripEnds(s[..|s| - 1]);
    }
  }

  lemma PrefixAt(s: string, a: string, rest: string)
    requires s == a + rest && AllSpace(a)
    ensures exists n :: 0 <= n <= |s| && rest == s[n..] && forall j :: 0 <= j < n ==> IsSpace(s[j])
  {
    var n := |a|;
    assert rest == s[n..] && forall j :: 0 <= j < n ==> s[j] == a[j];
  }

  lemma SuffixAt(s: string, rest: string, b: string)
    requires s == rest + b && AllSpace(b)
    ensures exists n :: 0 <= n <= |s| && rest == s[..n] && forall j :: n <= j < |s| ==> IsSpace(s[j])
  {
    var n := |rest|;
    assert rest == s[..n] && forall j :: n <= j < |s| ==> s[j] == b[j - n];
  }

  lemma LStripShape(s: string)
    ensures LStrip(s) == "" || !IsSpace(LStrip(s)[0])
    ensures exists n :: 0 <= n <= |s| && LStrip(s) == s[n..] && forall j :: 0 <= j < n ==> IsSpace(s[j])
  {
    LStripStarts(s);
    var a := LStripPart(s);
    PrefixAt(s, a, LStrip(s));
  }

  lemma RStripShape(s: string)
    ensures RStrip(s) == "" || !IsSpace(RStrip(s)[|RStrip(s)| - 1])
    ensures exists n :: 0 <= n <= |s| && RStrip(s) == s[..n] && forall j :: n <= j < |s| ==> IsSpace(s[j])
  {
    RStripEnds(s);
    var b := RStripPart(s);
    SuffixAt(s, RStrip(s), b);
  }

  lemma StripTrims(s: string)
    ensures Trimmed(Strip(s))
    ensures Strip(Strip(s)) == Strip(s)
  {
    LStripShape(s);
    RStripShape(LStrip(s));
  }

  lemma {:induction false} LStripPadded(pad: string, s: string)
    requires AllSpace(pad)
    ensures LStrip(pad + s) == LStrip(s)
  {
    if pad == "" {
      assert pad + s == s;
    } else {
      assert (pad + s)[1..] == pad[1..] + s;
      LStripPadded(pad[1..], s);
    }
  }

  lemma {:induction false} RStripPadded(s: string, pad: string)
    requires AllSpace(pad)
    ensures RStrip(s + pad) == RStrip(s)
  {
    if pad == "" {
      assert s + pad == s;
    } else {
      var shorter := pad[..|pad| - 1];
      assert (s + pad)[..|s + pad| - 1] == s + shorter;
      RStripPadded(s, shorter);
    }
  }

  /** A trimmed string with whitespace around it strips to itself. */
  lemma StripUnique(a: string, t: string, b: string)
    requires AllSpace(a) && Trimmed(t) && AllSpace(b)
    ensures Strip(a + t + b) == t
  {
    assert a + t + b == a + (t + b);
    LStripPadded(a, t + b);
    if t == "" {
      LStripPadded(b, "");
      assert t + b == b + "";
    } else {
      assert LStrip(t + b) == t + b;
      RStripPadded(t, b);
    }
  }

  /** Every string is its stripped form with whitespace around it. */
  lemma StripParts(s: string) returns (a: string, b: string)
    ensures AllSpace(a) && AllSpace(b) && s == a + Strip(s) + b
  {
    a := LStripPart(s);
    b := RStripPart(LStrip(s));
  }

  /** Trailing whitespace does not matter to strip. */
  lemma StripRStrip(s: string)
    ensures Strip(RStrip(s)) == Strip(s)
  {
    RStripShape(s);
    var n :| 0 <= n <= |s| && RStrip(s) == s[..n] && forall j :: n <= j < |s| ==> IsSpace(s[j]);
    var a, b := StripParts(s[..n]);
    var t, tail := Strip(s[..n]), b + s[n..];
    StripTrims(s[..n]);
    assert s == a + t + tail;
    StripUnique(a, t, tail);
  }

  lemma StripIsPart(s: string)
    ensures forall c :: c in Strip(s) ==> c in s
  {
    var a, b := StripParts(s);
  }
}
