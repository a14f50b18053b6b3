/** Decimal integers as text, and comma-separated lists of them. */
module Decimal {
  import opened Wrappers
  import opened Text

  predicate IsDigit(c: char) {
    '0' <= c <= '9'
  }

  function ToDigit(n: nat): (c: char)
    requires n < 10
    ensures IsDigit(c) && FromDigit(c) == n
  {
    '0' + n as char
  }

  function FromDigit(c: char): (n: nat)
    requires IsDigit(c)
    ensures n < 10
  {
    (c as int) - ('0' as int)
  }

  function PrintNat(n: nat): (s: string)
    ensures s != "" && forall c :: c in s ==> IsDigit(c)
  {
    if n < 10 then [ToDigit(n)] else PrintNat(n / 10) + [ToDigit(n % 10)]
  }

  function PrintInt(n: int): (s: string)
    ensures s != "" && forall c :: c in s ==> IsDigit(c) || c == '-'
  {
    if n < 0 then "-" + PrintNat(-n) else PrintNat(n)
  }

  function ParseNat(s: string): Option<int> {
    if s == "" || !IsDigit(s[|s| - 1]) then None
    else if |s| == 1 then Some(FromDigit(s[0]))
    else
      match ParseNat(s[..|s| - 1])
      case None => None
      case Some(n) => Some(10 * n + FromDigit(s[|s| - 1]))
  }

  /** int(s): surrounding whitespace and one sign are allowed; None is the ValueError. */
  function ParseInt(s: string): Option<int> {
    var t := Strip(s);
    if t != "" && (t[0] == '-' || t[0] == '+') then
      match ParseNat(t[1..])
      case None => None
      case Some(n) => Some(if t[0] == '-' then -n else n)
    else ParseNat(t)
  }

  lemma {:induction false} NatRoundTrip(n: nat)
    ensures ParseNat(PrintNat(n)) == Some(n)
  {
    if n >= 10 {
      NatRoundTrip(n / 10);
      var s := PrintNat(n);
      assert s[..|s| - 1] == PrintNat(n / 10);
    }
  }

  lemma PrintedIsTrimmed(n: int)
    ensures Trimmed(PrintInt(n)) && Strip(PrintInt(n)) == PrintInt(n)
  {
    var s := PrintInt(n);
    assert s[0] in s && s[|s| - 1] in s;
    StripUnique("", s, "");
    assert "" + s + "" == s;
  }

  lemma FirstDigit(n: nat)
    ensures IsDigit(PrintNat(n)[0])
  {
    assert PrintNat(n)[0] in PrintNat(n);
  }

  lemma ParseNegative(s: string)
    requires Strip(s) == s && s != "" && s[0] == '-'
    ensures ParseInt(s) == match ParseNat(s[1..]) case None => None case Some(n) => Some(-n)
  {
  }

  lemma IntRoundTrip(n: int)
    ensures ParseInt(PrintInt(n)) == Some(n)
  {
    PrintedIsTrimmed(n);
    if n < 0 {
      NatRoundTrip(-n);
      ParseNegative(PrintInt(n));
      assert PrintInt(n)[1..] == PrintNat(-n);
    } else {
      NatRoundTrip(n);
      FirstDigit(n);
    }
  }

  lemma {:induction false} NatReadIff(s: string)
    ensures ParseNat(s).Some? <==> s != "" && forall c :: c in s ==> IsDigit(c)
  {
    if s != "" {
      NatReadIff(s[..|s| - 1]);
      assert s == s[..|s| - 1] + [s[|s| - 1]];
      assert s[|s| - 1] in s;
    }
  }

  lemma SignedText(sign: string, n: nat, a: string, b: string)
    requires AllSpace(a) && AllSpace(b) && (sign == "" || sign == "+" || sign == "-")
    ensures var t := sign + PrintNat(n); Strip(a + t + b) == t && t[|sign|..] == PrintNat(n)
  {
    var t := sign + PrintNat(n);
    FirstDigit(n);
    assert PrintNat(n)[|PrintNat(n)| - 1] in PrintNat(n);
    assert t[0] == (if sign == "" then PrintNat(n)[0] else sign[0]);
    assert t[|t| - 1] == PrintNat(n)[|PrintNat(n)| - 1];
    StripUnique(a, t, b);
  }

  lemma ReadSign(s: string, digits: string, n: nat)
    requires ParseNat(digits) == Some(n)
    ensures Strip(s) == "+" + digits ==> ParseInt(s) == Some(n as int)
    ensures Strip(s) == "-" + digits ==> ParseInt(s) == Some(0 - n as int)
    ensures Strip(s) == digits && digits[0] != '+' && digits[0] != '-' ==> ParseInt(s) == Some(n as int)
  {
    assert ("+" + digits)[1..] == digits && ("-" + digits)[1..] == digits;
  }

  /** A number may have one sign and white space around it. */
  lemma SignedRoundTrip(n: nat, a: string, b: string)
    requires AllSpace(a) && AllSpace(b)
    ensures ParseInt(a + ("+" + PrintNat(n)) + b) == Some(n as int)
    ensures ParseInt(a + ("-" + PrintNat(n)) + b) == Some(0 - n as int)
  {
    NatRoundTrip(n);
    SignedText("+", n, a, b);
    SignedText("-", n, a, b);
    ReadSign(a + ("+" + PrintNat(n)) + b, PrintNat(n), n);
    ReadSign(a + ("-" + PrintNat(n)) + b, PrintNat(n), n);
  }

  /** Text is a number exactly when, white space aside, it is digits after at most one sign. */
  lemma IntReadIff(s: string)
    ensures ParseInt(s).Some?
            <==> var t := Strip(s);
                 var digits := if t != "" && (t[0] == '-' || t[0] == '+') then t[1..] else t;
                 digits != "" && forall c :: c in digits ==> IsDigit(c)
  {
    var t := Strip(s);
    NatReadIff(if t != "" && (t[0] == '-' || t[0] == '+') then t[1..] else t);
  }

  function PrintEach(ns: seq<int>): (r: seq<string>)
    ensures |r| == |ns| && forall i :: 0 <= i < |ns| ==> r[i] == PrintInt(ns[i])
  {
    if ns == [] then [] else [PrintInt(ns[0])] + PrintEach(ns[1..])
  }

  function PrintInts(ns: seq<int>): string {
    Join(PrintEach(ns), ",")
  }

  function ParseEach(ss: seq<string>): Option<seq<int>> {
    if ss == [] then Some([])
    else
      match (ParseInt(ss[0]), ParseEach(ss[1..]))
      case (Some(n), Some(ns)) => Some([n] + ns)
      case _ => None
  }

  /** [int(x) for x in s.split(",")] */
  function ParseInts(s: string): Option<seq<int>> {
    ParseEach(Split(s, ','))
  }

  lemma {:induction false} EachRoundTrip(ns: seq<int>)
    ensures ParseEach(PrintEach(ns)) == Some(ns)
  {
    if ns != [] {
      IntRoundTrip(ns[0]);
      EachRoundTrip(ns[1..]);
      assert PrintEach(ns)[1..] == PrintEach(ns[1..]);
      assert ns == [ns[0]] + ns[1..];
    }
  }

  /** A printed list reads back, except that the empty list prints as text no integer has. */
  lemma IntsRoundTrip(ns: seq<int>)
    ensures ParseInts(PrintInts(ns)) == if ns == [] then None else Some(ns)
  {
    if ns == [] {
      assert Split("", ',') == [""];
      assert Strip("") == "";
    } else {
      assert forall p :: p in PrintEach(ns) ==> ',' !in p;
      assert [','] == ",";
      SplitJoin(PrintEach(ns), ',');
      EachRoundTrip(ns);
    }
  }

  lemma {:induction false} PrintedInts(ns: seq<int>)
    ensures forall c :: c in PrintInts(ns) ==> IsDigit(c) || c == '-' || c == ','
    ensures Trimmed(PrintInts(ns))
  {
    if |ns| > 1 {
      PrintedInts(ns[1..]);
      assert PrintEach(ns)[1..] == PrintEach(ns[1..]);
    }
    var s := PrintInts(ns);
    if s != "" {
      assert s[0] in s && s[|s| - 1] in s;
    }
  }
}
