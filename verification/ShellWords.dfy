/** Quoting and splitting of shell command lines (Python's shlex in POSIX mode;
    section 2.2 of the POSIX.1-2017 Shell Command Language). */
module ShellWords {
  import opened Wrappers
  import opened Text

  // The characters shlex.quote leaves bare.
  predicate IsSafe(c: char) {
    || 'a' <= c <= 'z' || 'A' <= c <= 'Z' || '0' <= c <= '9' || c == '_' || c == '@' || c == '%'
    || c == '+' || c == '=' || c == ':' || c == ',' || c == '.' || c == '/' || c == '-'
  }

  predicate AllSafe(s: string) {
    forall i :: 0 <= i < |s| ==> IsSafe(s[i])
  }

  // A single quote inside a single-quoted word becomes '"'"'.
  function EscapeQuotes(s: string): string {
    if s == "" then ""
    else (if s[0] == '\'' then "'\"'\"'" else [s[0]]) + EscapeQuotes(s[1..])
  }

  function Quote(s: string): string {
    if s == "" then "''"
    else if AllSafe(s) then s
    else "'" + EscapeQuotes(s) + "'"
  }

  function QuoteAll(tokens: seq<string>): seq<string> {
    if tokens == [] then [] else [Quote(tokens[0])] + QuoteAll(tokens[1..])
  }

  function CommandLine(tokens: seq<string>): string {
    Join(QuoteAll(tokens), " ")
  }

  // shlex's word separators.
  predicate IsBlank(c: char) {
    c == ' ' || c == '\t' || c == '\r' || c == '\n'
  }

  /** States of the lexer: between words, inside a bare word, inside either kind
      of quotes, or just after a backslash outside or inside double quotes. */
  datatype Mode = Between | Bare | Single | Double | EscapedBare | EscapedDouble

  function Prepend(token: string, rest: Option<seq<string>>): Option<seq<string>> {
    match rest
    case None => None
    case Some(ts) => Some([token] + ts)
  }

  /** Tokens of the rest of a line, given the state and the word read so far;
      None when a quote or an escape is left open. */
  function Lex(s: string, mode: Mode, word: string): Option<seq<string>>
    decreases |s|
  {
    if s == "" then
      match mode
      case Between => Some([])
      case Bare => Some([word])
      case _ => None
    else
      var c, rest := s[0], s[1..];
      match mode
      case Between =>
        if IsBlank(c) then Lex(rest, Between, "")
        else if c == '\\' then Lex(rest, EscapedBare, "")
        else if c == '\'' then Lex(rest, Single, "")
        else if c == '"' then Lex(rest, Double, "")
        else Lex(rest, Bare, [c])
      case Bare =>
        if IsBlank(c) then Prepend(word, Lex(rest, Between, ""))
        else if c == '\\' then Lex(rest, EscapedBare, word)
        else if c == '\'' then Lex(rest, Single, word)
        else if c == '"' then Lex(rest, Double, word)
        else Lex(rest, Bare, word + [c])
      case Single =>
        if c == '\'' then Lex(rest, Bare, word) else Lex(rest, Single, word + [c])
      case Double =>
        if c == '"' then Lex(rest, Bare, word)
        else if c == '\\' then Lex(rest, EscapedDouble, word)
        else Lex(rest, Double, word + [c])
      case EscapedBare => Lex(rest, Bare, word + [c])
      case EscapedDouble =>
        // Inside double quotes a backslash only escapes itself and the quote.
        Lex(rest, Double, word + (if c == '\\' || c == '"' then [c] else ['\\', c]))
  }

  function SplitWords(cmd: string): Option<seq<string>> {
    Lex(cmd, Between, "")
  }

  ghost function Extend(tokens: seq<string>, rest: Option<seq<string>>): Option<seq<string>> {
    match rest
    case None => None
    case Some(ts) => Some(tokens + ts)
  }

  /** shlex.split: the character loop with its state, current word and token list. */
  method SplitCommand(cmd: string) returns (r: Option<seq<string>>)
    ensures r == SplitWords(cmd)
  {
    var tokens: seq<string> := [];
    var mode, word := Between, "";
    var i := 0;
    assert cmd[0..] == cmd;
    ghost var all := SplitWords(cmd);
    assert all.Some? ==> [] + all.value == all.value;
    while i < |cmd|
      invariant 0 <= i <= |cmd|
      invariant mode == Between ==> word == ""
      invariant SplitWords(cmd) == Extend(tokens, Lex(cmd[i..], mode, word))
    {
      var c := cmd[i];
      assert cmd[i..][0] == c && cmd[i..][1..] == cmd[i + 1..];
      ghost var rest := cmd[i + 1..];
      ghost var before, beforeWord := tokens, word;
      match mode {
        case Between =>
          if !IsBlank(c) {
            if c == '\\' { mode := EscapedBare; }
            else if c == '\'' { mode := Single; }
            else if c == '"' { mode := Double; }
            else { mode, word := Bare, [c]; }
          }
        case Bare =>
          if IsBlank(c) {
            tokens, mode, word := tokens + [word], Between, "";
            assert Extend(before, Prepend(beforeWord, Lex(rest, Between, ""))) == Extend(tokens, Lex(rest, Between, "")) by {
              if Lex(rest, Between, "").Some? {
                assert before + ([beforeWord] + Lex(rest, Between, "").value) == before + [beforeWord] + Lex(rest, Between, "").value;
              }
            }
          }
          else if c == '\\' { mode := EscapedBare; }
          else if c == '\'' { mode := Single; }
          else if c == '"' { mode := Double; }
          else { word := word + [c]; }
        case Single =>
          if c == '\'' { mode := Bare; } else { word := word + [c]; }
        case Double =>
          if c == '"' { mode := Bare; }
          else if c == '\\' { mode := EscapedDouble; }
          else { word := word + [c]; }
        case EscapedBare =>
          mode, word := Bare, word + [c];
        case EscapedDouble =>
          mode, word := Double, word + (if c == '\\' || c == '"' then [c] else ['\\', c]);
      }
      i := i + 1;
    }
    assert cmd[i..] == "" && tokens + [] == tokens;
    if mode == Between {
      r := Some(tokens);
    } else if mode == Bare {
      r := Some(tokens + [word]);
    } else {
      r := None;
    }
  }

  lemma {:induction false} LexBare(t: string, tail: string, word: string)
    requires AllSafe(t)
    ensures Lex(t + tail, Bare, word) == Lex(tail, Bare, word + t)
    decreases |t|
  {
    if t == "" {
      assert t + tail == tail && word + t == word;
    } else {
      assert (t + tail)[1..] == t[1..] + tail;
      assert IsSafe(t[0]);
      LexBare(t[1..], tail, word + [t[0]]);
      assert word + [t[0]] + t[1..] == word + t;
    }
  }

  lemma {:induction false} LexEscaped(t: string, tail: string, word: string)
    ensures Lex(EscapeQuotes(t) + "'" + tail, Single, word) == Lex(tail, Bare, word + t)
    decreases |t|
  {
    if t == "" {
      assert EscapeQuotes(t) + "'" + tail == "'" + tail && word + t == word;
      assert ("'" + tail)[1..] == tail;
    } else {
      var rest := EscapeQuotes(t[1..]) + "'" + tail;
      assert word + [t[0]] + t[1..] == word + t;
      LexEscaped(t[1..], tail, word + [t[0]]);
      LexEscapedFirst(t, rest, tail, word);
    }
  }

  lemma LexEscapedFirst(t: string, rest: string, tail: string, word: string)
    requires t != "" && rest == EscapeQuotes(t[1..]) + "'" + tail
    ensures Lex(EscapeQuotes(t) + "'" + tail, Single, word) == Lex(rest, Single, word + [t[0]])
  {
    if t[0] == '\'' {
      assert EscapeQuotes(t) + "'" + tail == "'\"'\"'" + rest;
      LexQuotedQuote(rest, word);
    } else {
      assert EscapeQuotes(t) + "'" + tail == [t[0]] + rest;
      assert ([t[0]] + rest)[1..] == rest;
    }
  }

  /** The five characters written for a quote read back as that quote. */
  lemma LexQuotedQuote(rest: string, word: string)
    ensures Lex("'\"'\"'" + rest, Single, word) == Lex(rest, Single, word + ['\''])
  {
    LexOpenQuote("'\"'" + rest, word);
    assert "'\"'\"'" + rest == "'\"" + ("'\"'" + rest);
    LexCloseQuote(rest, word);
  }

  lemma LexOpenQuote(rest: string, word: string)
    ensures Lex("'\"" + rest, Single, word) == Lex(rest, Double, word)
  {
    assert ("'\"" + rest)[1..] == "\"" + rest && ("\"" + rest)[1..] == rest;
    assert Lex("'\"" + rest, Single, word) == Lex("\"" + rest, Bare, word);
  }

  lemma LexCloseQuote(rest: string, word: string)
    ensures Lex("'\"'" + rest, Double, word) == Lex(rest, Single, word + ['\''])
  {
    assert ("'\"'" + rest)[1..] == "\"'" + rest;
    assert ("\"'" + rest)[1..] == "'" + rest && ("'" + rest)[1..] == rest;
    assert Lex("'\"'" + rest, Double, word) == Lex("\"'" + rest, Double, word + ['\'']);
    assert Lex("\"'" + rest, Double, word + ['\'']) == Lex("'" + rest, Bare, word + ['\'']);
  }

  /** A quoted token is read back as the word so far, whatever follows it. */
  lemma LexQuoted(t: string, tail: string)
    ensures Lex(Quote(t) + tail, Between, "") == Lex(tail, Bare, t)
  {
    if t == "" {
      LexQuotedEmpty(tail);
    } else if AllSafe(t) {
      LexQuotedSafe(t, tail);
    } else {
      LexQuotedUnsafe(t, tail);
    }
  }

  lemma LexQuotedUnsafe(t: string, tail: string)
    ensures Lex("'" + EscapeQuotes(t) + "'" + tail, Between, "") == Lex(tail, Bare, t)
  {
    var q := "'" + EscapeQuotes(t) + "'" + tail;
    assert q[1..] == EscapeQuotes(t) + "'" + tail;
    LexEscaped(t, tail, "");
    assert "" + t == t;
  }

  lemma LexQuotedEmpty(tail: string)
    ensures Lex("''" + tail, Between, "") == Lex(tail, Bare, "")
  {
    assert ("''" + tail)[1..] == "'" + tail && ("'" + tail)[1..] == tail;
  }

  lemma LexQuotedSafe(t: string, tail: string)
    requires t != "" && AllSafe(t)
    ensures Lex(t + tail, Between, "") == Lex(tail, Bare, t)
  {
    var s := t + tail;
    assert IsSafe(t[0]) && s[0] == t[0];
    assert s[1..] == t[1..] + tail;
    LexBare(t[1..], tail, [t[0]]);
    assert [t[0]] + t[1..] == t;
  }

  /** Quoting any token list, joining it with blanks and splitting it again gives the list back. */
  lemma {:induction false} QuoteSplitRoundTrip(tokens: seq<string>)
    ensures SplitWords(CommandLine(tokens)) == Some(tokens)
  {
    if tokens == [] {
    } else if |tokens| == 1 {
      assert QuoteAll(tokens) == [Quote(tokens[0])];
      assert CommandLine(tokens) == Quote(tokens[0]) + "";
      LexQuoted(tokens[0], "");
      assert tokens == [tokens[0]];
    } else {
      var rest := CommandLine(tokens[1..]);
      QuoteSplitRoundTrip(tokens[1..]);
      assert QuoteAll(tokens)[1..] == QuoteAll(tokens[1..]);
      assert CommandLine(tokens) == Quote(tokens[0]) + (" " + rest);
      LexQuoted(tokens[0], " " + rest);
      assert (" " + rest)[1..] == rest;
      assert [tokens[0]] + tokens[1..] == tokens;
    }
  }

  /** Distinct token lists print as distinct command lines. */
  lemma CommandLineInjective(a: seq<string>, b: seq<string>)
    requires CommandLine(a) == CommandLine(b)
    ensures a == b
  {
    QuoteSplitRoundTrip(a);
    QuoteSplitRoundTrip(b);
  }

  // ---- Every way to write a word ----

  /** A character between double quotes: itself, or one behind a backslash. */
  datatype Item = Itself(c: char) | Slashed(c: char)

  /** Part of a word, in one of the four ways to write it. */
  datatype Piece = Unquoted(text: string) | InSingles(text: string) | InDoubles(items: seq<Item>) | Escaped(c: char)

  predicate IsOrdinary(c: char) {
    !IsBlank(c) && c != '\\' && c != '\'' && c != '"'
  }

  predicate Writable(p: Piece) {
    match p
    case Unquoted(text) => text != "" && forall c :: c in text ==> IsOrdinary(c)
    case InSingles(text) => '\'' !in text
    case InDoubles(items) =>
      forall i :: 0 <= i < |items| && items[i].Itself? ==> items[i].c != '"' && items[i].c != '\\'
    case Escaped(_) => true
  }

  function WrittenItem(item: Item): string {
    if item.Itself? then [item.c] else ['\\', item.c]
  }

  function WrittenItems(items: seq<Item>): string {
    if items == [] then "" else WrittenItem(items[0]) + WrittenItems(items[1..])
  }

  function Written(p: Piece): string {
    match p
    case Unquoted(text) => text
    case InSingles(text) => "'" + text + "'"
    case InDoubles(items) => "\"" + WrittenItems(items) + "\""
    case Escaped(c) => ['\\', c]
  }

  /** Between double quotes the backslash only takes itself and the double quote literally. */
  function ItemMeans(item: Item): string {
    match item
    case Itself(c) => [c]
    case Slashed(c) => if c == '"' || c == '\\' then [c] else ['\\', c]
  }

  function ItemsMean(items: seq<Item>): string {
    if items == [] then "" else ItemMeans(items[0]) + ItemsMean(items[1..])
  }

  function Means(p: Piece): string {
    match p
    case Unquoted(text) => text
    case InSingles(text) => text
    case InDoubles(items) => ItemsMean(items)
    case Escaped(c) => [c]
  }

  function WrittenWord(w: seq<Piece>): string {
    if w == [] then "" else Written(w[0]) + WrittenWord(w[1..])
  }

  function WordMeans(w: seq<Piece>): string {
    if w == [] then "" else Means(w[0]) + WordMeans(w[1..])
  }

  predicate Blanks(s: string) {
    forall i :: 0 <= i < |s| ==> IsBlank(s[i])
  }

  // A word with the blanks before it.
  datatype Spaced = Spaced(gap: string, word: seq<Piece>)

  predicate WritableWord(s: Spaced) {
    Blanks(s.gap) && s.word != [] && forall i :: 0 <= i < |s.word| ==> Writable(s.word[i])
  }

  /** Words on a line: blanks must stand between them, and may stand before the first. */
  predicate WritableLine(ws: seq<Spaced>) {
    && (forall i :: 0 <= i < |ws| ==> WritableWord(ws[i]))
    && (forall i :: 0 < i < |ws| ==> ws[i].gap != "")
  }

  function WrittenLine(ws: seq<Spaced>, end: string): string {
    if ws == [] then end else ws[0].gap + (WrittenWord(ws[0].word) + WrittenLine(ws[1..], end))
  }

  function LineMeans(ws: seq<Spaced>): seq<string> {
    if ws == [] then [] else [WordMeans(ws[0].word)] + LineMeans(ws[1..])
  }

  lemma {:induction false} LexUnquoted(text: string, tail: string, word: string)
    requires forall c :: c in text ==> IsOrdinary(c)
    ensures Lex(text + tail, Bare, word) == Lex(tail, Bare, word + text)
    decreases |text|
  {
    if text == "" {
      assert text + tail == tail && word + text == word;
    } else {
      assert (text + tail)[1..] == text[1..] + tail && text[0] in text;
      assert word + [text[0]] + text[1..] == word + text;
      LexUnquoted(text[1..], tail, word + [text[0]]);
    }
  }

  lemma {:induction false} LexSingles(text: string, tail: string, word: string)
    requires '\'' !in text
    ensures Lex(text + "'" + tail, Single, word) == Lex(tail, Bare, word + text)
    decreases |text|
  {
    var s := text + "'" + tail;
    if text == "" {
      assert s[0] == '\'' && s[1..] == tail && word + text == word;
    } else {
      assert s[0] == text[0] && s[1..] == text[1..] + "'" + tail && text[0] in text;
      assert word + [text[0]] + text[1..] == word + text;
      LexSingles(text[1..], tail, word + [text[0]]);
    }
  }

  lemma LexItem(item: Item, rest: string, word: string)
    requires item.Itself? ==> item.c != '"' && item.c != '\\'
    ensures Lex(WrittenItem(item) + rest, Double, word) == Lex(rest, Double, word + ItemMeans(item))
  {
    var s := WrittenItem(item) + rest;
    if item.Itself? {
      assert s[0] == item.c && s[1..] == rest;
    } else {
      assert s[0] == '\\' && s[1..][0] == item.c && s[1..][1..] == rest;
    }
  }

  lemma {:induction false} LexDoubles(items: seq<Item>, tail: string, word: string)
    requires Writable(InDoubles(items))
    ensures Lex(WrittenItems(items) + "\"" + tail, Double, word) == Lex(tail, Bare, word + ItemsMean(items))
    decreases items
  {
    if items == [] {
      var s := WrittenItems(items) + "\"" + tail;
      assert s[0] == '"' && s[1..] == tail && word + ItemsMean(items) == word;
    } else {
      var first, rest := WrittenItem(items[0]), WrittenItems(items[1..]) + "\"" + tail;
      LexItem(items[0], rest, word);
      assert WrittenItems(items) + "\"" + tail == first + rest;
      LexDoubles(items[1..], tail, word + ItemMeans(items[0]));
      ConcatInOrder(word, ItemMeans(items[0]), ItemsMean(items[1..]));
    }
  }

  lemma LexInSingles(text: string, tail: string, word: string)
    requires '\'' !in text
    ensures Lex("'" + text + "'" + tail, Bare, word) == Lex(tail, Bare, word + text)
  {
    var s := "'" + text + "'" + tail;
    assert s[0] == '\'' && s[1..] == text + "'" + tail;
    LexSingles(text, tail, word);
  }

  lemma LexInDoubles(items: seq<Item>, tail: string, word: string)
    requires Writable(InDoubles(items))
    ensures Lex("\"" + WrittenItems(items) + "\"" + tail, Bare, word) == Lex(tail, Bare, word + ItemsMean(items))
  {
    var s := "\"" + WrittenItems(items) + "\"" + tail;
    assert s[0] == '"' && s[1..] == WrittenItems(items) + "\"" + tail;
    LexDoubles(items, tail, word);
  }

  lemma LexEscape(c: char, tail: string, word: string)
    ensures Lex(['\\', c] + tail, Bare, word) == Lex(tail, Bare, word + [c])
  {
    var s := ['\\', c] + tail;
    assert s[0] == '\\' && s[1..] == [c] + tail && s[1..][1..] == tail;
  }

  lemma LexPiece(p: Piece, tail: string, word: string)
    requires Writable(p)
    ensures Lex(Written(p) + tail, Bare, word) == Lex(tail, Bare, word + Means(p))
  {
    match p
    case Unquoted(text) => LexUnquoted(text, tail, word);
    case InSingles(text) => LexInSingles(text, tail, word);
    case InDoubles(items) => LexInDoubles(items, tail, word);
    case Escaped(c) => LexEscape(c, tail, word);
  }

  lemma WrittenStarts(p: Piece)
    requires Writable(p)
    ensures Written(p) != "" && !IsBlank(Written(p)[0])
  {
    if p.Unquoted? {
      assert p.text[0] in p.text;
    }
  }

  // Before a word the lexer is where it would be inside a word with nothing read yet.
  lemma LexStart(s: string)
    requires s != "" && !IsBlank(s[0])
    ensures Lex(s, Between, "") == Lex(s, Bare, "")
  {
    assert "" + [s[0]] == [s[0]];
  }

  lemma {:induction false} LexWord(w: seq<Piece>, tail: string, word: string)
    requires forall i :: 0 <= i < |w| ==> Writable(w[i])
    ensures Lex(WrittenWord(w) + tail, Bare, word) == Lex(tail, Bare, word + WordMeans(w))
    decreases w
  {
    if w == [] {
      assert WrittenWord(w) + tail == tail && word + WordMeans(w) == word;
    } else {
      ConcatInOrder(Written(w[0]), WrittenWord(w[1..]), tail);
      LexPiece(w[0], WrittenWord(w[1..]) + tail, word);
      LexWord(w[1..], tail, word + Means(w[0]));
      ConcatInOrder(word, Means(w[0]), WordMeans(w[1..]));
    }
  }

  lemma {:induction false} LexBlanks(gap: string, tail: string)
    requires Blanks(gap)
    ensures Lex(gap + tail, Between, "") == Lex(tail, Between, "")
    decreases |gap|
  {
    if gap == "" {
      assert gap + tail == tail;
    } else {
      assert (gap + tail)[0] == gap[0] && (gap + tail)[1..] == gap[1..] + tail;
      LexBlanks(gap[1..], tail);
    }
  }

  // A word ends at a blank or at the end of the line.
  predicate Ends(s: string) {
    s == "" || IsBlank(s[0])
  }

  lemma LexEnd(word: string, rest: string)
    requires Ends(rest)
    ensures Lex(rest, Bare, word) == Prepend(word, Lex(rest, Between, ""))
  {
    if rest == "" {
      assert [word] + [] == [word];
    } else {
      assert Lex(rest, Between, "") == Lex(rest[1..], Between, "");
    }
  }

  lemma WordStarts(w: seq<Piece>, tail: string)
    requires w != [] && forall i :: 0 <= i < |w| ==> Writable(w[i])
    ensures WrittenWord(w) + tail != "" && !IsBlank((WrittenWord(w) + tail)[0])
  {
    WrittenStarts(w[0]);
    assert (WrittenWord(w) + tail)[0] == Written(w[0])[0];
  }

  lemma LexSpaced(s: Spaced, rest: string)
    requires WritableWord(s) && Ends(rest)
    ensures Lex(s.gap + (WrittenWord(s.word) + rest), Between, "")
            == Prepend(WordMeans(s.word), Lex(rest, Between, ""))
  {
    LexBlanks(s.gap, WrittenWord(s.word) + rest);
    WordStarts(s.word, rest);
    LexStart(WrittenWord(s.word) + rest);
    LexWord(s.word, rest, "");
    assert "" + WordMeans(s.word) == WordMeans(s.word);
    LexEnd(WordMeans(s.word), rest);
  }

  lemma {:induction false} LexLine(ws: seq<Spaced>, end: string)
    requires WritableLine(ws) && Ends(end)
    ensures Lex(WrittenLine(ws, end), Between, "") == Extend(LineMeans(ws), Lex(end, Between, ""))
    decreases ws
  {
    if ws == [] {
      if Lex(end, Between, "").Some? {
        assert [] + Lex(end, Between, "").value == Lex(end, Between, "").value;
      }
    } else {
      var rest := WrittenLine(ws[1..], end);
      LaterGaps(ws);
      RestEnds(ws[1..], end);
      LexSpaced(ws[0], rest);
      LexLine(ws[1..], end);
      if Lex(end, Between, "").Some? {
        ConcatInOrder([WordMeans(ws[0].word)], LineMeans(ws[1..]), Lex(end, Between, "").value);
      }
    }
  }

  lemma LaterGaps(ws: seq<Spaced>)
    requires WritableLine(ws) && ws != []
    ensures WritableLine(ws[1..]) && (ws[1..] != [] ==> ws[1].gap != "" && Blanks(ws[1].gap))
  {
    assert forall i :: 0 < i < |ws| ==> ws[1..][i - 1] == ws[i];
    if |ws| > 1 {
      assert WritableWord(ws[1]);
    }
  }

  lemma RestEnds(ws: seq<Spaced>, end: string)
    requires Ends(end) && (ws != [] ==> ws[0].gap != "" && Blanks(ws[0].gap))
    ensures Ends(WrittenLine(ws, end))
  {
    if ws != [] {
      assert WrittenLine(ws, end)[0] == ws[0].gap[0];
    }
  }

  /** However the words of a command line are written - plain, between single or double
      quotes, escaped, or in any mixture - and however they are spaced, splitting the line
      gives what they mean. */
  lemma WrittenWordsSplit(ws: seq<Spaced>, end: string)
    requires WritableLine(ws) && Blanks(end)
    ensures SplitWords(WrittenLine(ws, end)) == Some(LineMeans(ws))
  {
    LexLine(ws, end);
    LexBlanks(end, "");
    assert end + "" == end && LineMeans(ws) + [] == LineMeans(ws);
  }

  lemma {:induction false} OpenSingle(text: string, word: string)
    requires '\'' !in text
    ensures Lex(text, Single, word) == None
    decreases |text|
  {
    if text != "" {
      assert text[0] in text;
      OpenSingle(text[1..], word + [text[0]]);
    }
  }

  lemma {:induction false} OpenDouble(items: seq<Item>, word: string)
    requires Writable(InDoubles(items))
    ensures Lex(WrittenItems(items), Double, word) == None
    decreases items
  {
    if items != [] {
      LexItem(items[0], WrittenItems(items[1..]), word);
      OpenDouble(items[1..], word + ItemMeans(items[0]));
    }
  }

  /** A quote that is never closed, or a backslash with nothing behind it, fails the split,
      whatever stands before it. */
  lemma OpenEndFails(ws: seq<Spaced>, gap: string, text: string, items: seq<Item>)
    requires WritableLine(ws) && Blanks(gap) && gap != ""
    requires '\'' !in text && Writable(InDoubles(items))
    ensures SplitWords(WrittenLine(ws, gap + ("'" + text))) == None
    ensures SplitWords(WrittenLine(ws, gap + ("\"" + WrittenItems(items)))) == None
    ensures SplitWords(WrittenLine(ws, gap + "\\")) == None
  {
    OpenSingle(text, "");
    OpenDouble(items, "");
    EndFails(ws, gap, "'" + text);
    EndFails(ws, gap, "\"" + WrittenItems(items));
    EndFails(ws, gap, "\\");
    assert ("'" + text)[1..] == text && ("\"" + WrittenItems(items))[1..] == WrittenItems(items);
  }

  lemma EndFails(ws: seq<Spaced>, gap: string, bad: string)
    requires WritableLine(ws) && Blanks(gap) && gap != ""
    ensures Lex(bad, Between, "") == None ==> SplitWords(WrittenLine(ws, gap + bad)) == None
  {
    assert (gap + bad)[0] == gap[0];
    LexLine(ws, gap + bad);
    LexBlanks(gap, bad);
  }

  lemma BlankCodes(c: char)
    ensures IsBlank(c) <==> c as int in {9, 10, 13, 32}
  {
  }
}
