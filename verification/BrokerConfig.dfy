/** Reading and editing a broker's server.properties: the parser, the line editor, and how
    an edit changes what the parser sees. */
module BrokerConfig {
  import opened Wrappers
  import opened Text

  type Properties = map<string, string>

  /** The assignment a line makes, if it makes one. */
  function ParseLine(line: string): Option<(string, string)> {
    var s := Strip(line);
    var i := Find(s, '=');
    if s == "" || s[0] == '#' || i == |s| then None
    else Some((Strip(s[..i]), Strip(s[i + 1..])))
  }

  lemma DividedBy(s: string, a: string, b: string)
    requires s == a + "=" + b && '=' !in a
    ensures Find(s, '=') == |a| < |s| && s[..|a|] == a && s[|a| + 1..] == b
    ensures s[0] == if a == "" then '=' else a[0]
  {
    FindAt(a, '=', b);
    assert a + ['='] + b == s;
  }

  lemma Divides(s: string)
    requires '=' in s
    ensures var i := Find(s, '='); i < |s| && s == s[..i] + "=" + s[i + 1..] && '=' !in s[..i]
  {
    FindDivides(s, '=');
    assert ['='] == "=";
  }

  // The text around the first equals sign of an assignment.
  ghost predicate Assignment(s: string, k: string, v: string) {
    exists a, b :: s == a + "=" + b && '=' !in a && (a == "" || a[0] != '#') && k == Strip(a) && v == Strip(b)
  }

  lemma AssignmentIff(line: string, k: string, v: string)
    ensures ParseLine(line) == Some((k, v)) <==> Assignment(Strip(line), k, v)
  {
    var s := Strip(line);
    if ParseLine(line) == Some((k, v)) {
      var i := Find(s, '=');
      assert s[i] in s;
      Divides(s);
      assert s[..i] == "" || s[..i][0] == s[0];
    }
    if Assignment(s, k, v) {
      var a, b :| s == a + "=" + b && '=' !in a && (a == "" || a[0] != '#') && k == Strip(a) && v == Strip(b);
      DividedBy(s, a, b);
    }
  }

  /** A line assigns exactly when, white space aside, it does not start with a hash sign and
      has an equals sign; the first one divides the key from the value. */
  lemma ParseLineIff(line: string, k: string, v: string)
    ensures ParseLine(line) == Some((k, v)) <==> Assignment(Strip(line), k, v)
    ensures ParseLine(line) == None <==> '=' !in Strip(line) || Strip(line)[0] == '#'
  {
    AssignmentIff(line, k, v);
    if '=' in Strip(line) {
      Divides(Strip(line));
    } else {
      FindNone(Strip(line), '=');
    }
  }

  function ParseLines(lines: seq<string>): Properties {
    if lines == [] then map[]
    else
      var before := ParseLines(lines[..|lines| - 1]);
      match ParseLine(lines[|lines| - 1])
      case None => before
      case Some((k, v)) => before[k := v]
  }

  function ParseFile(content: string): Properties {
    ParseLines(Lines(content))
  }

  /** _parse_properties */
  method ParseProperties(content: string) returns (result: Properties)
    ensures result == ParseFile(content)
  {
    result := map[];
    var lines := Lines(content);
    for i := 0 to |lines|
      invariant result == ParseLines(lines[..i])
    {
      assert lines[..i + 1][..i] == lines[..i];
      var s := Strip(lines[i]);
      if s != "" && s[0] != '#' && Find(s, '=') < |s| {
        var eq := Find(s, '=');
        result := result[Strip(s[..eq]) := Strip(s[eq + 1..])];
      }
    }
    assert lines[..|lines|] == lines;
  }

  // The two spellings of an assignment the editor looks for.
  predicate Recognised(line: string, key: string) {
    key + "=" <= Strip(line) || key + " =" <= Strip(line)
  }

  function NewLine(key: string, value: string): string {
    key + "=" + value
  }

  function EditEach(lines: seq<string>, key: string, value: string): (r: seq<string>)
    ensures |r| == |lines|
    ensures forall i :: 0 <= i < |lines| ==> r[i] == if Recognised(lines[i], key) then NewLine(key, value) else lines[i]
  {
    if lines == [] then []
    else EditEach(lines[..|lines| - 1], key, value)
         + [if Recognised(lines[|lines| - 1], key) then NewLine(key, value) else lines[|lines| - 1]]
  }

  predicate AnyRecognised(lines: seq<string>, key: string) {
    exists i :: 0 <= i < |lines| && Recognised(lines[i], key)
  }

  function EditLines(lines: seq<string>, key: string, value: string): (r: seq<string>)
    ensures r != []
  {
    EditEach(lines, key, value) + (if AnyRecognised(lines, key) then [] else [NewLine(key, value)])
  }

  function EditFile(content: string, key: string, value: string): string {
    Join(EditLines(Lines(content), key, value), "\n") + "\n"
  }

  lemma RecognisedSoFar(lines: seq<string>, i: nat, key: string)
    requires i < |lines|
    ensures AnyRecognised(lines[..i + 1], key) <==> AnyRecognised(lines[..i], key) || Recognised(lines[i], key)
    ensures lines[..i + 1][..i] == lines[..i]
  {
    var more := lines[..i + 1];
    assert forall j :: 0 <= j < i ==> more[j] == lines[..i][j];
    assert more[i] == lines[i];
  }

  /** The edit loop of update_broker_config. */
  method EditLoop(lines: seq<string>, key: string, value: string) returns (newLines: seq<string>)
    ensures newLines == EditLines(lines, key, value)
  {
    var updated := false;
    newLines := [];
    for i := 0 to |lines|
      invariant newLines == EditEach(lines[..i], key, value)
      invariant updated <==> AnyRecognised(lines[..i], key)
    {
      RecognisedSoFar(lines, i, key);
      if Recognised(lines[i], key) {
        newLines := newLines + [NewLine(key, value)];
        updated := true;
      } else {
        newLines := newLines + [lines[i]];
      }
    }
    assert lines[..|lines|] == lines;
    if !updated {
      newLines := newLines + [NewLine(key, value)];
    } else {
      assert newLines + [] == newLines;
    }
  }

  method EditContent(content: string, key: string, value: string) returns (newContent: string)
    ensures newContent == EditFile(content, key, value)
  {
    var newLines := EditLoop(Lines(content), key, value);
    newContent := Join(newLines, "\n") + "\n";
  }

  // ---- What an edit does to the parse ----

  /** A key as the interface passes it: trimmed, on one line, no '=', not a comment. */
  predicate GoodKey(key: string) {
    Trimmed(key) && '=' !in key && '\n' !in key && (key != "" ==> key[0] != '#')
  }

  /** The line written for a key is one the editor finds again and the parser reads as that
      key with the stripped value. */
  lemma NewLineMeans(key: string, value: string)
    requires GoodKey(key)
    ensures ParseLine(NewLine(key, value)) == Some((key, Strip(value)))
    ensures Recognised(NewLine(key, value), key)
  {
    var s := key + "=" + RStrip(value);
    NewLineStripped(key, value);
    assert s == key + ['='] + RStrip(value);
    FindAt(key, '=', RStrip(value));
    assert s[..|key|] == key && s[|key| + 1..] == RStrip(value);
    StripRStrip(value);
    assert "" + key + "" == key;
    StripUnique("", key, "");
  }

  lemma NewLineStripped(key: string, value: string)
    requires GoodKey(key)
    ensures Strip(NewLine(key, value)) == key + "=" + RStrip(value)
  {
    var tail := RStripPart(value);
    var n := |RStrip(value)|;
    RStripEnds(value);
    assert value[..n] == RStrip(value) && value[n..] == tail;
    assert n > 0 ==> value[n - 1] == RStrip(value)[n - 1];
    CutStripped(key, value, n);
  }

  lemma CutStripped(key: string, value: string, n: nat)
    requires Trimmed(key) && n <= |value| && AllSpace(value[n..])
    requires n > 0 ==> !IsSpace(value[n - 1])
    ensures Strip(NewLine(key, value)) == key + "=" + value[..n]
  {
    var t := NewLine(key, value[..n]);
    assert "" + t + value[n..] == NewLine(key, value);
    assert t[|key|] == '=' && t[|t| - 1] == (if n == 0 then '=' else value[n - 1]);
    assert t[0] == (if key == "" then '=' else key[0]);
    StripUnique("", t, value[n..]);
  }

  /** A line the editor finds is an assignment to that key. */
  lemma RecognisedAssigns(line: string, key: string)
    requires GoodKey(key) && Recognised(line, key)
    ensures ParseLine(line).Some? && ParseLine(line).value.0 == key
  {
    var s := Strip(line);
    StripTrims(line);
    if key + "=" <= s {
      FirstAssignment(line, key, "", s[|key| + 1..]);
    } else {
      FirstAssignment(line, key, " ", s[|key| + 2..]);
    }
  }

  lemma FirstAssignment(line: string, key: string, gap: string, rest: string)
    requires GoodKey(key) && (gap == "" || gap == " ") && Strip(line) == (key + gap) + "=" + rest
    requires Strip(line)[0] != '#'
    ensures ParseLine(line) == Some((key, Strip(rest)))
  {
    var s := (key + gap) + ['='] + rest;
    FindAt(key + gap, '=', rest);
    assert s == (key + gap) + "=" + rest;
    assert s[..|key + gap|] == key + gap && s[|key + gap| + 1..] == rest;
    assert "" + key + gap == key + gap;
    StripUnique("", key, gap);
  }

  predicate Assigns(line: string, key: string) {
    ParseLine(line).Some? && ParseLine(line).value.0 == key
  }

  /** The last line that assigns a key, which is the one that counts. */
  function LastAssigning(lines: seq<string>, key: string): (r: Option<string>)
    ensures r.Some? ==> Assigns(r.value, key)
  {
    if lines == [] then None
    else if Assigns(lines[|lines| - 1], key) then Some(lines[|lines| - 1])
    else LastAssigning(lines[..|lines| - 1], key)
  }

  lemma {:induction false} ParseIsLastAssignment(lines: seq<string>, key: string)
    ensures key in ParseLines(lines) <==> LastAssigning(lines, key).Some?
    ensures key in ParseLines(lines) ==> ParseLines(lines)[key] == ParseLine(LastAssigning(lines, key).value).value.1
  {
    if lines != [] {
      ParseIsLastAssignment(lines[..|lines| - 1], key);
    }
  }

  function EditLine(line: string, key: string, value: string): string {
    if Recognised(line, key) then NewLine(key, value) else line
  }

  lemma EditEachSnoc(lines: seq<string>, key: string, value: string)
    requires lines != []
    ensures var e := EditEach(lines, key, value);
            && e[..|e| - 1] == EditEach(lines[..|lines| - 1], key, value)
            && e[|e| - 1] == EditLine(lines[|lines| - 1], key, value)
  {
  }

  // An edited line assigns what the line did, up to the value for the key.
  lemma EditedLineAssigns(line: string, key: string, value: string, k: string)
    requires GoodKey(key)
    ensures Assigns(EditLine(line, key, value), k) <==> Assigns(line, k)
    ensures k != key && Assigns(line, k) ==> EditLine(line, key, value) == line
  {
    NewLineMeans(key, value);
    if Recognised(line, key) {
      RecognisedAssigns(line, key);
    }
  }

  lemma LastOfSnoc(lines: seq<string>, key: string)
    requires lines != []
    ensures LastAssigning(lines, key)
            == if Assigns(lines[|lines| - 1], key) then Some(lines[|lines| - 1]) else LastAssigning(lines[..|lines| - 1], key)
  {
  }

  lemma {:induction false} EditKeepsOthers(lines: seq<string>, key: string, value: string, k: string)
    requires GoodKey(key) && k != key
    ensures LastAssigning(EditEach(lines, key, value), k) == LastAssigning(lines, k)
  {
    if lines != [] {
      EditKeepsOthers(lines[..|lines| - 1], key, value, k);
      EditEachSnoc(lines, key, value);
      EditedLineAssigns(lines[|lines| - 1], key, value, k);
      LastOfSnoc(lines, k);
      LastOfSnoc(EditEach(lines, key, value), k);
    }
  }

  lemma {:induction false} EditMovesKey(lines: seq<string>, key: string, value: string)
    requires GoodKey(key)
    ensures var last := LastAssigning(lines, key);
            LastAssigning(EditEach(lines, key, value), key)
              == if last.Some? then Some(EditLine(last.value, key, value)) else None
  {
    if lines != [] {
      EditMovesKey(lines[..|lines| - 1], key, value);
      EditEachSnoc(lines, key, value);
      EditedLineAssigns(lines[|lines| - 1], key, value, key);
      LastOfSnoc(lines, key);
      LastOfSnoc(EditEach(lines, key, value), key);
    }
  }

  /** Of all the ways to space a key from its equals sign the editor finds two: nothing, and
      one blank. */
  lemma FoundIff(line: string, key: string, gap: string, rest: string)
    requires Strip(line) == key + gap + "=" + rest && AllSpace(gap)
    ensures Recognised(line, key) <==> gap == "" || gap == " "
  {
    var s, n := Strip(line), |key|;
    assert s[n] == (if gap == "" then '=' else gap[0]);
    assert key + "=" <= s <==> s[n] == '=' by {
      assert (key + "=")[n] == '=';
    }
    if |gap| > 0 {
      assert s[n + 1] == (if |gap| == 1 then '=' else gap[1]);
      BlankFound(s, key);
    } else {
      assert s == key + "=" + rest;
    }
  }

  lemma BlankFound(s: string, key: string)
    requires |s| > |key| + 1 && key <= s
    ensures key + " =" <= s <==> s[|key|] == ' ' && s[|key| + 1] == '='
  {
    var n := |key|;
    assert (key + " =")[n] == ' ' && (key + " =")[n + 1] == '=';
    if s[n] == ' ' && s[n + 1] == '=' {
      assert s[..n + 2] == key + " =";
    }
  }

  /** When the line an edit leaves for the key is the one that counts: nothing was found and
      a line is appended, or the line that counts is one the editor finds. */
  predicate Lands(lines: seq<string>, key: string) {
    || !AnyRecognised(lines, key)
    || (var last := LastAssigning(lines, key); last.Some? && Recognised(last.value, key))
  }

  /** When an edit is a plain map update: it lands, or the line that counts already has the
      new value. */
  predicate TakesEffect(lines: seq<string>, key: string, value: string) {
    || Lands(lines, key)
    || (var last := LastAssigning(lines, key); last.Some? && ParseLine(last.value).value.1 == Strip(value))
  }

  lemma {:induction false} RecognisedMeansAssigned(lines: seq<string>, key: string)
    requires GoodKey(key) && AnyRecognised(lines, key)
    ensures LastAssigning(lines, key).Some?
  {
    var before, last := lines[..|lines| - 1], lines[|lines| - 1];
    if Recognised(last, key) {
      RecognisedAssigns(last, key);
    } else {
      var i :| 0 <= i < |lines| && Recognised(lines[i], key);
      assert before[i] == lines[i];
      RecognisedMeansAssigned(before, key);
    }
  }

  lemma EditedLookup(lines: seq<string>, key: string, value: string, k: string)
    requires GoodKey(key)
    ensures LastAssigning(EditLines(lines, key, value), k)
              == if k == key && Lands(lines, key) then Some(NewLine(key, value)) else LastAssigning(lines, k)
  {
    var e := EditEach(lines, key, value);
    NewLineMeans(key, value);
    if k != key {
      EditKeepsOthers(lines, key, value, k);
    } else {
      EditMovesKey(lines, key, value);
    }
    if AnyRecognised(lines, key) {
      assert e + [] == e;
    } else {
      assert (e + [NewLine(key, value)])[..|e|] == e;
    }
  }

  lemma EditedValue(lines: seq<string>, key: string, value: string, k: string)
    requires GoodKey(key)
    ensures var before, after := ParseLines(lines), ParseLines(EditLines(lines, key, value));
            if k == key && Lands(lines, key) then k in after && after[k] == Strip(value)
            else (k in after <==> k in before) && (k in before ==> after[k] == before[k])
  {
    ParseIsLastAssignment(lines, k);
    ParseIsLastAssignment(EditLines(lines, key, value), k);
    EditedLookup(lines, key, value, k);
    NewLineMeans(key, value);
  }

  /** What an edit does to the parse, on any file: it sets the key to the stripped value if it
      lands, and otherwise changes nothing at all. */
  lemma EditedParse(lines: seq<string>, key: string, value: string)
    requires GoodKey(key)
    ensures ParseLines(EditLines(lines, key, value))
            == if Lands(lines, key) then ParseLines(lines)[key := Strip(value)] else ParseLines(lines)
  {
    var before, after := ParseLines(lines), ParseLines(EditLines(lines, key, value));
    forall k
      ensures if k == key && Lands(lines, key) then k in after && after[k] == Strip(value)
              else (k in after <==> k in before) && (k in before ==> after[k] == before[k])
    {
      EditedValue(lines, key, value, k);
    }
    MapIfSet(before, after, key, Strip(value), Lands(lines, key));
  }

  lemma MapIfSet<K(!new), V>(before: map<K, V>, after: map<K, V>, key: K, v: V, set_: bool)
    requires forall k :: if k == key && set_ then k in after && after[k] == v
                         else (k in after <==> k in before) && (k in before ==> after[k] == before[k])
    ensures after == if set_ then before[key := v] else before
  {
    EqualMaps(after, if set_ then before[key := v] else before);
  }

  lemma EqualMaps<K(!new), V>(p: map<K, V>, q: map<K, V>)
    requires forall k :: (k in p <==> k in q) && (k in p ==> p[k] == q[k])
    ensures p == q
  {
    assert p.Keys == q.Keys;
  }

  lemma StuckMeansAssigned(lines: seq<string>, key: string)
    requires GoodKey(key) && !Lands(lines, key)
    ensures LastAssigning(lines, key).Some? && key in ParseLines(lines)
    ensures ParseLines(lines)[key] == ParseLine(LastAssigning(lines, key).value).value.1
  {
    RecognisedMeansAssigned(lines, key);
    ParseIsLastAssignment(lines, key);
  }

  /** The edited lines parse to the old map with the key set to the stripped value, and
      nothing else changed, exactly when the edit takes effect. */
  lemma EditRefinesUpdateIff(lines: seq<string>, key: string, value: string)
    requires GoodKey(key)
    ensures ParseLines(EditLines(lines, key, value)) == ParseLines(lines)[key := Strip(value)]
            <==> TakesEffect(lines, key, value)
  {
    EditedParse(lines, key, value);
    if !Lands(lines, key) {
      StuckMeansAssigned(lines, key);
      SetToSame(ParseLines(lines), key, Strip(value));
    }
  }

  lemma SetToSame<K, V>(p: map<K, V>, key: K, v: V)
    requires key in p
    ensures p == p[key := v] <==> p[key] == v
  {
  }

  // A line for one key is never one the editor finds for another.
  lemma FoundForOne(line: string, key: string, k: string)
    requires GoodKey(key) && GoodKey(k) && Recognised(line, key) && Recognised(line, k)
    ensures k == key
  {
    RecognisedAssigns(line, key);
    RecognisedAssigns(line, k);
  }

  lemma EditedLineFor(line: string, key: string, value: string, k: string)
    requires GoodKey(key) && GoodKey(k) && k != key
    ensures Recognised(if Recognised(line, key) then NewLine(key, value) else line, k) <==> Recognised(line, k)
    ensures !Recognised(NewLine(key, value), k)
  {
    NewLineMeans(key, value);
    if Recognised(NewLine(key, value), k) {
      FoundForOne(NewLine(key, value), key, k);
    }
    if Recognised(line, key) && Recognised(line, k) {
      FoundForOne(line, key, k);
    }
  }

  lemma SameFound(a: seq<string>, b: seq<string>, k: string)
    requires |a| <= |b| && forall i :: 0 <= i < |a| ==> (Recognised(a[i], k) <==> Recognised(b[i], k))
    requires forall i :: |a| <= i < |b| ==> !Recognised(b[i], k)
    ensures AnyRecognised(a, k) <==> AnyRecognised(b, k)
  {
    if AnyRecognised(a, k) {
      var i :| 0 <= i < |a| && Recognised(a[i], k);
      assert Recognised(b[i], k);
    }
  }

  lemma EditKeepsFound(lines: seq<string>, key: string, value: string, k: string)
    requires GoodKey(key) && GoodKey(k) && k != key
    ensures AnyRecognised(EditLines(lines, key, value), k) <==> AnyRecognised(lines, k)
  {
    var e := EditLines(lines, key, value);
    EditedLineFor("", key, value, k);
    forall i | 0 <= i < |lines| ensures Recognised(lines[i], k) <==> Recognised(e[i], k) {
      EditedLineFor(lines[i], key, value, k);
    }
    SameFound(lines, e, k);
  }

  /** Whether edits of a key land is settled by the file they start from: no edit of this or
      another key changes it. */
  lemma EditKeepsLanding(lines: seq<string>, key: string, value: string, k: string)
    requires GoodKey(key) && GoodKey(k)
    ensures Lands(EditLines(lines, key, value), k) <==> Lands(lines, k)
  {
    EditedLookup(lines, key, value, k);
    NewLineMeans(key, value);
    if k != key {
      EditKeepsFound(lines, key, value, k);
    } else {
      NewLineWritten(lines, key, value);
      WrittenIsFound(EditLines(lines, key, value), key, value);
    }
  }

  lemma WrittenIsFound(lines: seq<string>, key: string, value: string)
    requires GoodKey(key) && NewLine(key, value) in lines
    ensures AnyRecognised(lines, key)
  {
    NewLineMeans(key, value);
    var i :| 0 <= i < |lines| && lines[i] == NewLine(key, value);
    assert Recognised(lines[i], key);
  }

  lemma EditedFileLines(content: string, key: string, value: string)
    requires GoodKey(key) && '\n' !in value
    ensures Lines(EditFile(content, key, value)) == EditLines(Lines(content), key, value)
  {
    LinesPieces(content);
    var ls := EditLines(Lines(content), key, value);
    forall l | l in ls ensures '\n' !in l {
      assert l == NewLine(key, value) || l in Lines(content);
    }
    LinesJoin(ls);
  }

  /** The same on files, for one-line values. */
  lemma EditFileParse(content: string, key: string, value: string)
    requires GoodKey(key) && '\n' !in value
    ensures ParseFile(EditFile(content, key, value))
            == if Lands(Lines(content), key) then ParseFile(content)[key := Strip(value)] else ParseFile(content)
  {
    EditedFileLines(content, key, value);
    EditedParse(Lines(content), key, value);
  }

  lemma EditFileKeepsLanding(content: string, key: string, value: string, k: string)
    requires GoodKey(key) && GoodKey(k) && '\n' !in value
    ensures Lands(Lines(EditFile(content, key, value)), k) <==> Lands(Lines(content), k)
  {
    EditedFileLines(content, key, value);
    EditKeepsLanding(Lines(content), key, value, k);
  }

  /** On files: for a one-line value, parsing the edited file is the map update, or not, by
      the same condition on the file as it was. */
  lemma EditFileRefinesUpdateIff(content: string, key: string, value: string)
    requires GoodKey(key) && '\n' !in value
    ensures ParseFile(EditFile(content, key, value)) == ParseFile(content)[key := Strip(value)]
            <==> TakesEffect(Lines(content), key, value)
  {
    EditedFileLines(content, key, value);
    EditRefinesUpdateIff(Lines(content), key, value);
  }

  predicate Settled(lines: seq<string>, key: string, value: string) {
    forall i :: 0 <= i < |lines| ==> lines[i] == NewLine(key, value) || !Recognised(lines[i], key)
  }

  lemma EditedIsSettled(lines: seq<string>, key: string, value: string)
    ensures Settled(EditEach(lines, key, value), key, value)
    ensures Settled(EditLines(lines, key, value), key, value)
  {
  }

  lemma SettledStays(lines: seq<string>, key: string, value: string)
    requires Settled(lines, key, value)
    ensures EditEach(lines, key, value) == lines
  {
    assert forall i :: 0 <= i < |lines| ==> EditEach(lines, key, value)[i] == lines[i];
  }

  lemma EditLinesIdempotent(lines: seq<string>, key: string, value: string)
    requires GoodKey(key)
    ensures EditLines(EditLines(lines, key, value), key, value) == EditLines(lines, key, value)
  {
    NewLineWritten(lines, key, value);
    WrittenMeansNothingToAdd(EditLines(lines, key, value), key, value);
    EditedIsSettled(lines, key, value);
    SettledStays(EditLines(lines, key, value), key, value);
  }

  lemma WrittenMeansNothingToAdd(lines: seq<string>, key: string, value: string)
    requires GoodKey(key) && NewLine(key, value) in lines
    ensures EditLines(lines, key, value) == EditEach(lines, key, value)
  {
    WrittenIsFound(lines, key, value);
  }

  lemma NewLineWritten(lines: seq<string>, key: string, value: string)
    ensures NewLine(key, value) in EditLines(lines, key, value)
  {
    var e := EditLines(lines, key, value);
    if AnyRecognised(lines, key) {
      var i :| 0 <= i < |lines| && Recognised(lines[i], key);
      assert e[i] == NewLine(key, value);
    } else {
      assert e[|lines|] == NewLine(key, value);
    }
  }

  /** Editing twice is editing once. */
  lemma EditIdempotent(content: string, key: string, value: string)
    requires GoodKey(key) && '\n' !in value
    ensures EditFile(EditFile(content, key, value), key, value) == EditFile(content, key, value)
  {
    EditedFileLines(content, key, value);
    EditLinesIdempotent(Lines(content), key, value);
  }

  lemma FoundLine()
    ensures Recognised("a=1", "a")
  {
    StripUnique("", "a=1", "");
    assert "" + "a=1" + "" == "a=1" && "a" + "=" == "a=";
  }

  lemma TabbedLine()
    ensures !Recognised("a\t=2", "a") && ParseLine("a\t=2") == Some(("a", "2"))
  {
    var s := "a\t=2";
    StripUnique("", s, "");
    assert "" + s + "" == s;
    assert ("a" + "=")[1] == '=' && ("a" + " =")[1] == ' ' && s[1] == '\t';
    assert s == "a\t" + ['='] + "2";
    FindAt("a\t", '=', "2");
    assert s[..2] == "a\t" && s[3..] == "2";
    StripUnique("", "a", "\t");
    StripUnique("", "2", "");
    assert "" + "a" + "\t" == "a\t" && "" + "2" + "" == "2";
  }

  /** A file on which an edit has no effect on the parse: the key is also spelled with a tab. */
  lemma ShadowedEdit()
    ensures var lines := ["a=1", "a\t=2"];
            !TakesEffect(lines, "a", "3") && ParseLines(EditLines(lines, "a", "3")) == ParseLines(lines)
  {
    var lines := ["a=1", "a\t=2"];
    FoundLine();
    TabbedLine();
    assert Recognised(lines[0], "a") && LastAssigning(lines, "a") == Some(lines[1]);
    StripUnique("", "3", "");
    assert "" + "3" + "" == "3";
    EditedParse(lines, "a", "3");
  }

  /** Every assignment in the lines is spelled in a way the editor finds. */
  ghost predicate WellSpelled(lines: seq<string>) {
    forall i :: 0 <= i < |lines| && ParseLine(lines[i]).Some? ==> Recognised(lines[i], ParseLine(lines[i]).value.0)
  }

  /** On a well-spelled file every edit lands. */
  lemma WellSpelledLands(lines: seq<string>, key: string)
    requires GoodKey(key) && WellSpelled(lines)
    ensures Lands(lines, key)
  {
    var last := LastAssigning(lines, key);
    if last.Some? {
      LastIsALine(lines, key);
    } else if AnyRecognised(lines, key) {
      RecognisedMeansAssigned(lines, key);
    }
  }

  lemma {:induction false} LastIsALine(lines: seq<string>, key: string)
    requires LastAssigning(lines, key).Some?
    ensures LastAssigning(lines, key).value in lines
  {
    if !Assigns(lines[|lines| - 1], key) {
      LastIsALine(lines[..|lines| - 1], key);
    }
  }

  // ---- Which keys there are ----

  lemma StripKeepsStart(s: string)
    requires s != "" && !IsSpace(s[0])
    ensures Strip(s) != "" && Strip(s)[0] == s[0]
  {
    RStripShape(s);
    var n :| 0 <= n <= |s| && RStrip(s) == s[..n] && forall j :: n <= j < |s| ==> IsSpace(s[j]);
    assert n > 0;
  }

  lemma AssignedKeyIsGood(line: string)
    requires '\n' !in line && ParseLine(line).Some?
    ensures GoodKey(ParseLine(line).value.0)
  {
    var s := Strip(line);
    var i := Find(s, '=');
    var k := Strip(s[..i]);
    StripTrims(line);
    StripTrims(s[..i]);
    StripIsPart(line);
    StripIsPart(s[..i]);
    assert '=' !in s[..i] && forall c :: c in s[..i] ==> c in s;
    if i > 0 {
      StripKeepsStart(s[..i]);
    }
  }

  /** No file defines any other key, so an edit for one is never the map update: for keys
      with surrounding white space, an equals sign, a line break or a leading '#', the edit
      cannot do what it is asked for. */
  lemma OnlyGoodKeysAreSet(content: string, key: string, value: string)
    requires !GoodKey(key)
    ensures key !in ParseFile(content)
    ensures ParseFile(EditFile(content, key, value)) != ParseFile(content)[key := Strip(value)]
  {
    ParsedKeyIsGood(content, key);
    ParsedKeyIsGood(EditFile(content, key, value), key);
    assert key in ParseFile(content)[key := Strip(value)];
  }

  lemma ParsedKeyIsGood(content: string, key: string)
    ensures key in ParseFile(content) ==> GoodKey(key)
  {
    var lines := Lines(content);
    LinesPieces(content);
    ParseIsLastAssignment(lines, key);
    if LastAssigning(lines, key).Some? {
      LastIsALine(lines, key);
      AssignedKeyIsGood(LastAssigning(lines, key).value);
    }
  }
}
