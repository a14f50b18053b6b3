/** The printed form of topic descriptions, and what the parsers make of it. */
module DescribeFormat {
  import opened Wrappers
  import opened Text
  import opened Decimal
  import opened TopicDescribe

  // ---- The printed format ----

  /** One labelled field of a line. */
  datatype Field = Field(tag: string, value: string) {
    function Text(): string {
      tag + " " + value
    }

    // The text without the whitespace around it; an empty value leaves only the label.
    function Stripped(): string {
      if value == "" then tag else Text()
    }
  }

  /** A partition, with the columns printed after the known ones. */
  datatype Partition = Partition(id: int, leader: Option<int>, replicas: seq<int>, isr: seq<int>, extra: seq<Field>)

  /** A topic, with the columns printed between its name and its partition count. */
  datatype Description = Description(name: string, extra: seq<Field>, partitions: int, replicationFactor: int,
                                     configs: seq<(string, string)>, details: seq<Partition>)

  function Texts(fs: seq<Field>): (r: seq<string>)
    ensures |r| == |fs| && forall i :: 0 <= i < |fs| ==> r[i] == fs[i].Text()
  {
    if fs == [] then [] else [fs[0].Text()] + Texts(fs[1..])
  }

  function Line(fs: seq<Field>): string {
    Join(Texts(fs), "\t")
  }

  function PrintPairs(pairs: seq<(string, string)>): (r: seq<string>)
    ensures |r| == |pairs| && forall i :: 0 <= i < |pairs| ==> r[i] == pairs[i].0 + "=" + pairs[i].1
  {
    if pairs == [] then [] else [pairs[0].0 + "=" + pairs[0].1] + PrintPairs(pairs[1..])
  }

  function CountFields(t: Description): seq<Field> {
    [Field("PartitionCount:", PrintInt(t.partitions)), Field("ReplicationFactor:", PrintInt(t.replicationFactor)),
     Field("Configs:", Join(PrintPairs(t.configs), ","))]
  }

  function HeaderFields(t: Description): seq<Field> {
    [Field("Topic:", t.name)] + t.extra + CountFields(t)
  }

  /** A partition without a leader says so in a word. */
  function PrintLeader(leader: Option<int>): string {
    match leader case None => "none" case Some(id) => PrintInt(id)
  }

  function KnownFields(name: string, p: Partition): seq<Field> {
    [Field("Topic:", name), Field("Partition:", PrintInt(p.id)), Field("Leader:", PrintLeader(p.leader)),
     Field("Replicas:", PrintInts(p.replicas)), Field("Isr:", PrintInts(p.isr))]
  }

  function DetailFields(name: string, p: Partition): seq<Field> {
    KnownFields(name, p) + p.extra
  }

  function PrintHeader(t: Description): string {
    Line(HeaderFields(t))
  }

  function PrintDetail(name: string, p: Partition): string {
    "\t" + Line(DetailFields(name, p))
  }

  function PrintDetails(name: string, ps: seq<Partition>): (r: seq<string>)
    ensures |r| == |ps| && forall i :: 0 <= i < |ps| ==> r[i] == PrintDetail(name, ps[i])
  {
    if ps == [] then [] else [PrintDetail(name, ps[0])] + PrintDetails(name, ps[1..])
  }

  function TopicLines(t: Description): seq<string> {
    [PrintHeader(t)] + PrintDetails(t.name, t.details)
  }

  function Concat<T>(pieces: seq<seq<T>>): seq<T> {
    if pieces == [] then [] else pieces[0] + Concat(pieces[1..])
  }

  function EachTopic(ts: seq<Description>): (r: seq<seq<string>>)
    ensures |r| == |ts| && forall i :: 0 <= i < |ts| ==> r[i] == TopicLines(ts[i])
  {
    if ts == [] then [] else [TopicLines(ts[0])] + EachTopic(ts[1..])
  }

  function PrintLines(ts: seq<Description>): seq<string> {
    Concat(EachTopic(ts))
  }

  /** The whole output, every line newline-terminated. */
  function Print(ts: seq<Description>): string {
    if ts == [] then "" else Join(PrintLines(ts), "\n") + "\n"
  }

  // ---- What the printed values mean ----

  function MeantDetail(p: Partition): Detail {
    Detail(Some(p.id), p.leader, Some(p.replicas), Some(p.isr))
  }

  function MeantDetails(ps: seq<Partition>): seq<Detail> {
    if ps == [] then [] else [MeantDetail(ps[0])] + MeantDetails(ps[1..])
  }

  function MeantConfigs(pairs: seq<(string, string)>): map<string, string> {
    if pairs == [] then map[] else MeantConfigs(pairs[..|pairs| - 1])[pairs[|pairs| - 1].0 := pairs[|pairs| - 1].1]
  }

  /** The configuration text as the parser takes it apart. */
  function ReadConfigs(pairs: seq<(string, string)>): map<string, string> {
    if pairs == [] then map[] else AddConfigs(map[], Split(Join(PrintPairs(pairs), ","), ','))
  }

  /** What the parser makes of a printed topic, whatever its configuration values hold. */
  function Read(t: Description): Topic {
    var configs := ReadConfigs(t.configs);
    Topic(t.name, t.partitions, t.replicationFactor, if configs == map[] then None else Some(configs),
          MeantDetails(t.details))
  }

  function Meant(t: Description): Topic {
    Topic(t.name, t.partitions, t.replicationFactor, if t.configs == [] then None else Some(MeantConfigs(t.configs)),
          MeantDetails(t.details))
  }

  predicate IsNameChar(c: char) {
    'a' <= c <= 'z' || 'A' <= c <= 'Z' || '0' <= c <= '9' || c == '.' || c == '_' || c == '-'
  }

  predicate IsConfigText(s: string) {
    Trimmed(s) && forall c :: c in s && IsSpace(c) ==> c == ' '
  }

  predicate IsTopicName(name: string) {
    name != "" && forall c :: c in name ==> IsNameChar(c)
  }

  predicate GoodPairs(pairs: seq<(string, string)>) {
    forall kv :: kv in pairs ==> IsConfigText(kv.0) && '=' !in kv.0 && IsConfigText(kv.1)
  }

  /** A configuration is a map: no key stands twice. */
  predicate DistinctKeys(pairs: seq<(string, string)>) {
    forall i, j :: 0 <= i < j < |pairs| ==> pairs[i].0 != pairs[j].0
  }

  /** No key and no value holds the character that separates the pairs. */
  predicate NoCommas(pairs: seq<(string, string)>) {
    forall kv :: kv in pairs ==> ',' !in kv.0 && ',' !in kv.1
  }

  predicate IsLabel(tag: string) {
    && |tag| >= 2 && tag[|tag| - 1] == ':' && ':' !in tag[..|tag| - 1]
    && !IsSpace(tag[0]) && '\t' !in tag && '\n' !in tag
  }

  predicate Fits(f: Field) {
    IsLabel(f.tag) && Trimmed(f.value) && '\t' !in f.value && '\n' !in f.value
  }

  /** A header column with a label the parser does not know. */
  predicate HeaderExtra(f: Field) {
    Fits(f) && HeaderLabel(f.Stripped()) == Other
  }

  /** A partition column with a label the parser does not know, and without the text that marks a header. */
  predicate DetailExtra(f: Field) {
    Fits(f) && DetailLabel(f.Stripped()) == Other && !Contains(f.Text(), "PartitionCount:")
  }

  predicate PrintablePartition(p: Partition) {
    forall f :: f in p.extra ==> DetailExtra(f)
  }

  predicate Printable(t: Description) {
    && IsTopicName(t.name) && GoodPairs(t.configs) && (forall f :: f in t.extra ==> HeaderExtra(f))
    && forall p :: p in t.details ==> PrintablePartition(p)
  }

  predicate IsPlaced(p: Partition) {
    p.leader.Some? && p.replicas != [] && p.isr != []
  }

  /** Every partition has a leader and lists at least one replica and one in-sync replica. */
  predicate Placed(ps: seq<Partition>) {
    forall p :: p in ps ==> IsPlaced(p)
  }

  /** What the parsers make of a printed topic, and whether they make anything of it. */
  function Outcome(t: Description): Option<Topic> {
    if Placed(t.details) then Some(Read(t)) else None
  }

  // ---- Lines of fields, whatever the labels ----

  lemma FieldStripped(f: Field)
    requires Fits(f)
    ensures Strip(f.Text()) == f.Stripped()
    ensures Strip(f.Stripped()) == f.Stripped()
  {
    var p := f.Stripped();
    var pad := if f.value == "" then " " else "";
    assert "" + p + pad == f.Text();
    assert p[|p| - 1] == (if f.value == "" then ':' else f.value[|f.value| - 1]);
    StripUnique("", p, pad);
    StripUnique("", p, "");
    assert "" + p + "" == p;
  }

  lemma AfterColonAt(a: string, rest: string)
    requires ':' !in a
    ensures AfterColon(a + [':'] + rest) == rest
  {
    FindAt(a, ':', rest);
    assert (a + [':'] + rest)[|a| + 1..] == rest;
  }

  lemma StripSpaced(value: string)
    requires Trimmed(value)
    ensures Strip(" " + value) == value && Strip(value) == value
  {
    StripUnique(" ", value, "");
    StripUnique("", value, "");
    assert " " + value + "" == " " + value && "" + value + "" == value;
  }

  lemma AfterLabel(f: Field)
    requires Fits(f)
    ensures AfterColon(f.Stripped()) == if f.value == "" then "" else " " + f.value
    ensures f.tag <= f.Stripped()
  {
    var tag := f.tag;
    var rest := if f.value == "" then "" else " " + f.value;
    assert f.Stripped() == tag[..|tag| - 1] + [':'] + rest;
    AfterColonAt(tag[..|tag| - 1], rest);
  }

  /** A stripped field is recognised by its label and gives back its value. */
  lemma FieldReads(f: Field)
    requires Fits(f)
    ensures f.tag <= f.Stripped()
    ensures Rest(f.Stripped()) == f.value
    ensures ':' !in f.value ==> Value(f.Stripped()) == f.value
  {
    AfterLabel(f);
    StripSpaced(f.value);
    if ':' !in f.value {
      var rest := AfterColon(f.Stripped());
      FindNone(rest, ':');
      assert rest[..|rest|] == rest;
    }
  }

  /** The parts of a line once it is stripped: the last field may lose its trailing space. */
  function Parts(fs: seq<Field>): seq<string>
    requires fs != []
  {
    Texts(fs[..|fs| - 1]) + [fs[|fs| - 1].Stripped()]
  }

  function SeenLine(fs: seq<Field>): string
    requires fs != []
  {
    Join(Parts(fs), "\t")
  }

  ghost predicate AllFit(fs: seq<Field>) {
    forall i :: 0 <= i < |fs| ==> Fits(fs[i])
  }

  lemma PartStripped(fs: seq<Field>, i: nat)
    requires i < |fs| && AllFit(fs)
    ensures Strip(Parts(fs)[i]) == fs[i].Stripped()
  {
    FieldStripped(fs[i]);
  }

  lemma PartsFit(fs: seq<Field>)
    requires fs != [] && AllFit(fs)
    ensures forall p :: p in Parts(fs) ==> '\t' !in p && '\n' !in p && p != ""
  {
    forall p | p in Parts(fs) ensures '\t' !in p && '\n' !in p && p != "" {
      var i :| 0 <= i < |fs| && Parts(fs)[i] == p;
      assert p == fs[i].Text() || p == fs[i].Stripped();
    }
  }

  lemma SeenLineSplits(fs: seq<Field>)
    requires fs != [] && AllFit(fs)
    ensures Split(SeenLine(fs), '\t') == Parts(fs)
    ensures '\n' !in SeenLine(fs)
  {
    PartsFit(fs);
    TabSplit(Parts(fs));
    JoinHasNo(Parts(fs), '\n');
  }

  /** A line of printed fields, stripped, splits back into its parts. */
  lemma LineSplits(pad: string, fs: seq<Field>)
    requires AllSpace(pad) && fs != [] && AllFit(fs)
    ensures Strip(pad + Line(fs)) == SeenLine(fs)
    ensures Split(SeenLine(fs), '\t') == Parts(fs)
    ensures '\n' !in SeenLine(fs)
  {
    SeenLineSplits(fs);
    var n := |fs| - 1;
    assert fs == fs[..n] + [fs[n]];
    TextsSnoc(fs[..n], fs[n]);
    StripEnds(pad, Texts(fs[..n]), fs);
  }

  lemma {:induction false} TextsSnoc(front: seq<Field>, last: Field)
    ensures Texts(front + [last]) == Texts(front) + [last.Text()]
    decreases front
  {
    if front == [] {
      assert front + [last] == [last] && [last][1..] == [];
    } else {
      TextsSnoc(front[1..], last);
      assert (front + [last])[1..] == front[1..] + [last];
    }
  }

  lemma TabSplit(fields: seq<string>)
    requires fields != [] && forall f :: f in fields ==> '\t' !in f
    ensures Split(Join(fields, "\t"), '\t') == fields
  {
    assert ['\t'] == "\t";
    SplitJoin(fields, '\t');
  }

  lemma StripEnds(pad: string, texts: seq<string>, fs: seq<Field>)
    requires AllSpace(pad) && fs != [] && AllFit(fs) && texts == Texts(fs[..|fs| - 1])
    ensures Strip(pad + Join(texts + [fs[|fs| - 1].Text()], "\t")) == Join(texts + [fs[|fs| - 1].Stripped()], "\t")
  {
    var f := fs[|fs| - 1];
    if texts == [] {
      StripTail(pad, "", f);
      assert "" + f.Text() == f.Text() && "" + f.Stripped() == f.Stripped();
    } else {
      JoinSnoc(texts, f.Text(), "\t");
      JoinSnoc(texts, f.Stripped(), "\t");
      assert texts[0] == fs[0].Text();
      StripTail(pad, Join(texts, "\t") + "\t", f);
    }
  }

  lemma StripTail(pad: string, start: string, f: Field)
    requires AllSpace(pad) && Fits(f) && (start != "" ==> !IsSpace(start[0]))
    ensures Strip(pad + (start + f.Text())) == start + f.Stripped()
  {
    var p := f.Stripped();
    var tail := if f.value == "" then " " else "";
    assert pad + (start + p) + tail == pad + (start + f.Text());
    assert (start + p)[|start + p| - 1] == (if f.value == "" then ':' else f.value[|f.value| - 1]);
    StripUnique(pad, start + p, tail);
  }

  lemma {:induction false} JoinSnoc(parts: seq<string>, last: string, sep: string)
    requires parts != []
    ensures Join(parts + [last], sep) == Join(parts, sep) + sep + last
  {
    var all := parts + [last];
    if |parts| > 1 {
      JoinSnoc(parts[1..], last, sep);
      assert all[1..] == parts[1..] + [last];
    } else {
      assert all[1..] == [last];
    }
  }

  lemma {:induction false} JoinHasNo(parts: seq<string>, c: char)
    requires c != '\t' && forall p :: p in parts ==> c !in p
    ensures c !in Join(parts, "\t")
  {
    if parts != [] {
      assert parts[0] in parts;
      assert forall p :: p in parts[1..] ==> p in parts;
      JoinHasNo(parts[1..], c);
    }
  }

  lemma SeenLineParts(fs: seq<Field>)
    requires |fs| > 1
    ensures Parts(fs)[0] == fs[0].Text()
    ensures SeenLine(fs) == fs[0].Text() + "\t" + Join(Parts(fs)[1..], "\t")
  {
    var parts := Parts(fs);
    assert parts == [parts[0]] + parts[1..];
    JoinCons(parts[0], parts[1..], "\t");
  }

  /** The label of the first field starts the line and every label is in it. */
  lemma LineShows(fs: seq<Field>, i: nat)
    requires |fs| > 1 && i < |fs|
    ensures fs[0].tag <= SeenLine(fs)
    ensures Contains(SeenLine(fs), fs[i].tag)
  {
    SeenLineParts(fs);
    TagInField(fs[i]);
    PartInLine(Parts(fs), i, fs[i].tag);
  }

  lemma TagInField(f: Field)
    ensures Contains(f.Text(), f.tag) && Contains(f.Stripped(), f.tag)
  {
    assert OccursAt(f.Text(), 0, f.tag) && OccursAt(f.Stripped(), 0, f.tag);
  }

  lemma LineName(fs: seq<Field>)
    requires |fs| > 1 && Fits(fs[0]) && fs[0].value != ""
    ensures Rest(SeenLine(fs)[..Find(SeenLine(fs), '\t')]) == fs[0].value
  {
    SeenLineParts(fs);
    FirstPart(fs[0].Text(), Join(Parts(fs)[1..], "\t"));
    FieldReads(fs[0]);
  }

  lemma FirstPart(a: string, rest: string)
    requires '\t' !in a
    ensures (a + "\t" + rest)[..Find(a + "\t" + rest, '\t')] == a
  {
    FindAt(a, '\t', rest);
    assert a + ['\t'] + rest == a + "\t" + rest;
  }

  lemma ContainsAround(before: string, s: string, after: string, sub: string)
    requires Contains(s, sub)
    ensures Contains(before + s + after, sub)
  {
    var i :| 0 <= i <= |s| && OccursAt(s, i, sub);
    var all, at := before + s + after, |before| + i;
    assert all[at..at + |sub|] == s[i..i + |sub|];
    assert OccursAt(all, at, sub);
  }

  /** What a part of a line contains, the line contains. */
  lemma {:induction false} PartInLine(parts: seq<string>, i: nat, sub: string)
    requires i < |parts| && Contains(parts[i], sub)
    ensures Contains(Join(parts, "\t"), sub)
  {
    if |parts| > 1 {
      var rest := Join(parts[1..], "\t");
      if i == 0 {
        ContainsAround("", parts[0], "\t" + rest, sub);
        assert "" + parts[0] + ("\t" + rest) == Join(parts, "\t");
      } else {
        PartInLine(parts[1..], i - 1, sub);
        ContainsAround(parts[0] + "\t", rest, "", sub);
        assert parts[0] + "\t" + rest + "" == Join(parts, "\t");
      }
    }
  }

  lemma ContainsEither(a: string, b: string, sub: string)
    requires Contains(a + "\t" + b, sub)
    ensures Contains(a, sub) || Contains(b, sub) || '\t' in sub
  {
    var s := a + "\t" + b;
    var i :| 0 <= i <= |s| && OccursAt(s, i, sub);
    if i + |sub| <= |a| {
      assert a[i..i + |sub|] == s[i..i + |sub|];
      assert OccursAt(a, i, sub);
    } else if i > |a| {
      var at := i - |a| - 1;
      assert forall k :: 0 <= k < |b| ==> s[|a| + 1 + k] == b[k];
      assert b[at..at + |sub|] == s[i..i + |sub|];
      assert OccursAt(b, at, sub);
    } else {
      assert s[i..i + |sub|][|a| - i] == '\t';
      assert sub[|a| - i] in sub;
    }
  }

  /** A text without tabs that is in the line is in one of its parts. */
  lemma {:induction false} LineHasNo(parts: seq<string>, sub: string)
    requires parts != [] && '\t' !in sub && forall i :: 0 <= i < |parts| ==> !Contains(parts[i], sub)
    ensures !Contains(Join(parts, "\t"), sub)
  {
    if |parts| > 1 {
      LineHasNo(parts[1..], sub);
      if Contains(Join(parts, "\t"), sub) {
        ContainsEither(parts[0], Join(parts[1..], "\t"), sub);
      }
    }
  }

  lemma FieldHas(f: Field, sub: string)
    requires Contains(f.Stripped(), sub)
    ensures Contains(f.Text(), sub)
  {
    var pad := if f.value == "" then " " else "";
    ContainsAround("", f.Stripped(), pad, sub);
    assert "" + f.Stripped() + pad == f.Text();
  }

  lemma SeenLineHasNo(fs: seq<Field>, sub: string)
    requires fs != [] && '\t' !in sub && forall i :: 0 <= i < |fs| ==> !Contains(fs[i].Text(), sub)
    ensures !Contains(SeenLine(fs), sub)
  {
    if Contains(fs[|fs| - 1].Stripped(), sub) {
      FieldHas(fs[|fs| - 1], sub);
    }
    LineHasNo(Parts(fs), sub);
  }

  /** The only colon of a field with a plain value ends its label. */
  lemma ColonEnds(f: Field, sub: string)
    requires Fits(f) && ':' !in f.value && sub != "" && sub[|sub| - 1] == ':' && Contains(f.Text(), sub)
    ensures |sub| <= |f.tag|
  {
    var s := f.Text();
    var i :| 0 <= i <= |s| && OccursAt(s, i, sub);
    assert s[i + |sub| - 1] == s[i..i + |sub|][|sub| - 1];
    assert forall k :: |f.tag| < k < |s| ==> s[k] == f.value[k - |f.tag| - 1];
  }

  // ---- The header line ----

  lemma Labels()
    ensures IsLabel("Topic:") && IsLabel("PartitionCount:") && IsLabel("ReplicationFactor:") && IsLabel("Configs:")
  {
  }

  lemma MoreLabels()
    ensures IsLabel("Topic:") && IsLabel("Partition:") && IsLabel("Leader:") && IsLabel("Replicas:") && IsLabel("Isr:")
  {
  }

  lemma NameFits(name: string)
    requires IsTopicName(name)
    ensures Trimmed(name) && ':' !in name && '\t' !in name && '\n' !in name
  {
    assert name[0] in name && name[|name| - 1] in name;
  }

  lemma IntFits(n: int)
    ensures var s := PrintInt(n); Trimmed(s) && ':' !in s && '\t' !in s && '\n' !in s
  {
    PrintedIsTrimmed(n);
  }

  lemma IntsFit(ns: seq<int>)
    ensures var s := PrintInts(ns); Trimmed(s) && ':' !in s && '\t' !in s && '\n' !in s
  {
    PrintedInts(ns);
  }

  lemma HeaderLabels(p: string)
    ensures "Topic:" <= p ==> HeaderLabel(p) == Other
    ensures "ReplicationFactor:" <= p ==> HeaderLabel(p) == ReplicationFactor
    ensures "Configs:" <= p ==> HeaderLabel(p) == Configs
  {
    assert "PartitionCount:"[0] == 'P' && "ReplicationFactor:"[0] == 'R' && "Configs:"[0] == 'C' && "Topic:"[0] == 'T';
    StartDiffers(p, "PartitionCount:", 'P');
    StartDiffers(p, "ReplicationFactor:", 'R');
    StartDiffers(p, "Configs:", 'C');
    StartDiffers(p, "Topic:", 'T');
  }

  lemma StartDiffers(p: string, tag: string, c: char)
    requires tag != "" && tag[0] == c
    ensures tag <= p ==> p != "" && p[0] == c
  {
  }

  lemma CountPart(d: Seen, part: string, f: Field, n: int)
    requires f.tag == "PartitionCount:" && f.value == PrintInt(n) && Fits(f) && Strip(part) == f.Stripped()
    ensures HeaderPart(d, part) == Some(d.(partitions := n))
  {
    IntFits(n);
    FieldReads(f);
    IntRoundTrip(n);
  }

  lemma FactorPart(d: Seen, part: string, f: Field, n: int)
    requires f.tag == "ReplicationFactor:" && f.value == PrintInt(n) && Fits(f) && Strip(part) == f.Stripped()
    ensures HeaderPart(d, part) == Some(d.(replicationFactor := n))
  {
    IntFits(n);
    FieldReads(f);
    HeaderLabels(f.Stripped());
    IntRoundTrip(n);
  }

  lemma ConfigsPart(d: Seen, part: string, f: Field)
    requires f.tag == "Configs:" && Fits(f) && Strip(part) == f.Stripped()
    ensures HeaderPart(d, part)
            == Some(if f.value == "" then d else d.(configs := AddConfigs(d.configs, Split(f.value, ','))))
  {
    FieldReads(f);
    HeaderLabels(f.Stripped());
  }

  lemma {:induction false} AddConfigsSnoc(m: map<string, string>, pairs: seq<string>, last: string)
    ensures AddConfigs(m, pairs + [last]) == AddConfig(AddConfigs(m, pairs), last)
    decreases pairs
  {
    var all := pairs + [last];
    if pairs != [] {
      assert all[1..] == pairs[1..] + [last];
      AddConfigsSnoc(AddConfig(m, pairs[0]), pairs[1..], last);
    } else {
      assert all[1..] == [];
    }
  }

  lemma PairReads(m: map<string, string>, k: string, v: string)
    requires Trimmed(k) && Trimmed(v) && '=' !in k
    ensures AddConfig(m, k + "=" + v) == m[k := v]
  {
    PairMeans(m, k, v);
    StripSpaced(k);
    StripSpaced(v);
  }

  // Without commas the pieces of the text are the printed pairs.
  lemma {:induction false} PairsRead(pairs: seq<(string, string)>)
    requires GoodPairs(pairs)
    ensures AddConfigs(map[], PrintPairs(pairs)) == MeantConfigs(pairs)
  {
    if pairs != [] {
      var before, kv := pairs[..|pairs| - 1], pairs[|pairs| - 1];
      PairsRead(before);
      assert kv in pairs;
      assert PrintPairs(pairs) == PrintPairs(before) + [kv.0 + "=" + kv.1];
      AddConfigsSnoc(map[], PrintPairs(before), kv.0 + "=" + kv.1);
      PairReads(MeantConfigs(before), kv.0, kv.1);
    }
  }

  lemma {:induction false} JoinFits(parts: seq<string>, c: char)
    requires forall p :: p in parts ==> p != "" && Trimmed(p) && c !in p
    requires c != ','
    ensures Trimmed(Join(parts, ",")) && c !in Join(parts, ",") && (Join(parts, ",") == "" <==> parts == [])
  {
    if parts != [] {
      assert parts[0] in parts;
    }
    if |parts| > 1 {
      assert forall p :: p in parts[1..] ==> p in parts;
      JoinFits(parts[1..], c);
      var rest := Join(parts[1..], ",");
      assert Join(parts, ",")[|Join(parts, ",")| - 1] == rest[|rest| - 1];
    }
  }

  lemma PairsFit(pairs: seq<(string, string)>)
    requires GoodPairs(pairs)
    ensures forall p :: p in PrintPairs(pairs) ==> p != "" && Trimmed(p) && '\t' !in p && '\n' !in p
  {
    forall p | p in PrintPairs(pairs) ensures p != "" && Trimmed(p) && '\t' !in p && '\n' !in p {
      var i :| 0 <= i < |pairs| && PrintPairs(pairs)[i] == p;
      PairFits(pairs[i].0, pairs[i].1);
    }
  }

  lemma PairFits(k: string, v: string)
    requires IsConfigText(k) && IsConfigText(v)
    ensures var p := k + "=" + v; p != "" && Trimmed(p) && '\t' !in p && '\n' !in p
  {
    var p := k + "=" + v;
    assert p[0] == (if k == "" then '=' else k[0]);
    assert p[|p| - 1] == (if v == "" then '=' else v[|v| - 1]);
  }

  lemma ConfigsFit(pairs: seq<(string, string)>)
    requires GoodPairs(pairs)
    ensures var cfg := Join(PrintPairs(pairs), ",");
            Trimmed(cfg) && '\t' !in cfg && '\n' !in cfg && (cfg == "" <==> pairs == [])
  {
    PairsFit(pairs);
    JoinFits(PrintPairs(pairs), '\t');
    JoinFits(PrintPairs(pairs), '\n');
  }

  lemma PlainConfigsRead(pairs: seq<(string, string)>)
    requires GoodPairs(pairs) && NoCommas(pairs)
    ensures ReadConfigs(pairs) == MeantConfigs(pairs)
  {
    if pairs != [] {
      PairsRead(pairs);
      forall p | p in PrintPairs(pairs) ensures ',' !in p {
        var i :| 0 <= i < |pairs| && PrintPairs(pairs)[i] == p;
        assert pairs[i] in pairs;
      }
      assert [','] == ",";
      SplitJoin(PrintPairs(pairs), ',');
    }
  }

  // ---- Configurations with commas ----

  ghost predicate CommaFree(m: map<string, string>) {
    forall k :: k in m ==> ',' !in k && ',' !in m[k]
  }

  lemma PieceKeepsCommaFree(m: map<string, string>, pair: string)
    requires CommaFree(m) && ',' !in pair
    ensures CommaFree(AddConfig(m, pair))
  {
    var i := Find(pair, '=');
    if i < |pair| {
      StripIsPart(pair[..i]);
      StripIsPart(pair[i + 1..]);
    }
  }

  lemma {:induction false} PiecesKeepCommaFree(m: map<string, string>, pairs: seq<string>)
    requires CommaFree(m) && forall p :: p in pairs ==> ',' !in p
    ensures CommaFree(AddConfigs(m, pairs))
    decreases pairs
  {
    if pairs != [] {
      assert pairs[0] in pairs && forall p :: p in pairs[1..] ==> p in pairs;
      PieceKeepsCommaFree(m, pairs[0]);
      PiecesKeepCommaFree(AddConfig(m, pairs[0]), pairs[1..]);
    }
  }

  /** Whatever is printed, no key and no value with a comma is ever read. */
  lemma ReadIsCommaFree(pairs: seq<(string, string)>)
    ensures CommaFree(ReadConfigs(pairs))
  {
    if pairs != [] {
      var cfg := Join(PrintPairs(pairs), ",");
      SplitPieces(cfg, ',');
      PiecesKeepCommaFree(map[], Split(cfg, ','));
    }
  }

  lemma {:induction false} MeantHolds(pairs: seq<(string, string)>, i: nat)
    requires i < |pairs| && DistinctKeys(pairs)
    ensures pairs[i].0 in MeantConfigs(pairs) && MeantConfigs(pairs)[pairs[i].0] == pairs[i].1
  {
    var n := |pairs| - 1;
    if i < n {
      assert pairs[..n][i] == pairs[i];
      MeantHolds(pairs[..n], i);
    }
  }

  /** The configuration is read as it was meant exactly when none of its keys and values
      holds a comma. */
  lemma ConfigsReadIff(pairs: seq<(string, string)>)
    requires GoodPairs(pairs) && DistinctKeys(pairs)
    ensures ReadConfigs(pairs) == MeantConfigs(pairs) <==> NoCommas(pairs)
  {
    if NoCommas(pairs) {
      PlainConfigsRead(pairs);
    } else {
      var kv :| kv in pairs && (',' in kv.0 || ',' in kv.1);
      var i :| 0 <= i < |pairs| && pairs[i] == kv;
      MeantHolds(pairs, i);
      ReadIsCommaFree(pairs);
    }
  }

  lemma ReadIff(t: Description)
    requires GoodPairs(t.configs) && DistinctKeys(t.configs)
    ensures Read(t) == Meant(t) <==> NoCommas(t.configs)
  {
    ConfigsReadIff(t.configs);
    ConfigsEmptyIff(t.configs);
  }

  lemma ConfigsEmptyIff(pairs: seq<(string, string)>)
    ensures MeantConfigs(pairs) == map[] <==> pairs == []
  {
    if pairs != [] {
      assert pairs[|pairs| - 1].0 in MeantConfigs(pairs);
    }
  }

  /** Of a value that is a list of two, the second is dropped without notice. */
  lemma SecondValueDropped(k: string, v: string, b: string)
    requires Trimmed(k) && Trimmed(v) && ',' !in k + v + b && '=' !in k + b
    ensures ReadConfigs([(k, v + "," + b)]) == map[k := v]
  {
    var pairs, first := [(k, v + "," + b)], k + "=" + v;
    assert Join(PrintPairs(pairs), ",") == first + [','] + b;
    SplitAt(first, ',', b);
    FindNone(b, ',');
    assert Split(first + [','] + b, ',') == [first] + [b];
    AddConfigsSnoc(map[], [first], b);
    assert [first][1..] == [];
    PairReads(map[], k, v);
    FindNone(b, '=');
  }

  lemma FoldCons<S, T>(step: (S, T) -> Option<S>, s: S, x: T, rest: seq<T>)
    ensures Fold(step, s, [x] + rest) == match step(s, x) case None => None case Some(t) => Fold(step, t, rest)
  {
    assert ([x] + rest)[1..] == rest;
  }

  lemma {:induction false} FoldAppend<S, T>(step: (S, T) -> Option<S>, s: S, a: seq<T>, b: seq<T>)
    ensures Fold(step, s, a + b) == match Fold(step, s, a) case None => None case Some(t) => Fold(step, t, b)
    decreases a
  {
    if a == [] {
      assert a + b == b;
    } else {
      assert (a + b)[1..] == a[1..] + b;
      if step(s, a[0]).Some? {
        FoldAppend(step, step(s, a[0]).value, a[1..], b);
      }
    }
  }

  lemma {:induction false} FoldIgnored<S, T>(step: (S, T) -> Option<S>, s: S, xs: seq<T>)
    requires forall i :: 0 <= i < |xs| ==> step(s, xs[i]) == Some(s)
    ensures Fold(step, s, xs) == Some(s)
    decreases xs
  {
    if xs != [] {
      assert step(s, xs[0]) == Some(s);
      FoldIgnored(step, s, xs[1..]);
    }
  }

  lemma FoldThree<S, T>(step: (S, T) -> Option<S>, s: S, s0: S, s1: S, xs: seq<T>)
    requires |xs| == 3 && step(s, xs[0]) == Some(s0) && step(s0, xs[1]) == Some(s1)
    ensures Fold(step, s, xs) == step(s1, xs[2])
  {
    assert xs == [xs[0]] + ([xs[1]] + ([xs[2]] + []));
    FoldCons(step, s, xs[0], [xs[1]] + ([xs[2]] + []));
    FoldCons(step, s0, xs[1], [xs[2]] + []);
    FoldCons(step, s1, xs[2], []);
  }

  function NoDetails(t: Description): Seen {
    Seen(t.partitions, t.replicationFactor, ReadConfigs(t.configs), [])
  }

  // Parts that strip to the texts of the fields.
  ghost predicate Shown(parts: seq<string>, fs: seq<Field>) {
    |parts| == |fs| && forall i :: 0 <= i < |fs| ==> Fits(fs[i]) && Strip(parts[i]) == fs[i].Stripped()
  }

  lemma CountsFit(t: Description)
    requires GoodPairs(t.configs)
    ensures AllFit(CountFields(t))
  {
    Labels();
    IntFits(t.partitions);
    IntFits(t.replicationFactor);
    ConfigsFit(t.configs);
  }

  lemma TopicFits(name: string)
    requires IsTopicName(name)
    ensures Fits(Field("Topic:", name))
  {
    Labels();
    NameFits(name);
  }

  lemma HeaderFits(t: Description)
    requires Printable(t)
    ensures AllFit(HeaderFields(t))
  {
    TopicFits(t.name);
    CountsFit(t);
    FitsAround(Field("Topic:", t.name), t.extra, CountFields(t));
  }

  lemma FitsAround(f: Field, extra: seq<Field>, fs: seq<Field>)
    requires Fits(f) && AllFit(fs) && forall g :: g in extra ==> Fits(g)
    ensures AllFit([f] + extra + fs)
  {
    var all := [f] + extra + fs;
    assert forall i :: 0 < i <= |extra| ==> all[i] == extra[i - 1];
    assert forall i :: |extra| < i < |all| ==> all[i] == fs[i - |extra| - 1];
  }

  lemma HeaderIgnores(d: Seen, part: string, f: Field)
    requires HeaderLabel(f.Stripped()) == Other && Strip(part) == f.Stripped()
    ensures HeaderPart(d, part) == Some(d)
  {
  }

  lemma HeaderTopic(name: string)
    requires IsTopicName(name)
    ensures HeaderLabel(Field("Topic:", name).Stripped()) == Other
  {
    TopicFits(name);
    AfterLabel(Field("Topic:", name));
    HeaderLabels(Field("Topic:", name).Stripped());
  }

  lemma CountsFold(t: Description, parts: seq<string>)
    requires GoodPairs(t.configs) && Shown(parts, CountFields(t))
    ensures Fold(HeaderPart, Seen(0, 0, map[], []), parts) == Some(NoDetails(t))
  {
    var d := Seen(0, 0, map[], []);
    var d0 := d.(partitions := t.partitions);
    var d1 := d0.(replicationFactor := t.replicationFactor);
    CountPart(d, parts[0], CountFields(t)[0], t.partitions);
    FactorPart(d0, parts[1], CountFields(t)[1], t.replicationFactor);
    AllConfigsPart(d1, t, parts[2]);
    FoldThree(HeaderPart, d, d0, d1, parts);
  }

  lemma AllConfigsPart(d: Seen, t: Description, part: string)
    requires GoodPairs(t.configs) && d.configs == map[]
    requires var f := CountFields(t)[2]; Fits(f) && Strip(part) == f.Stripped()
    ensures HeaderPart(d, part) == Some(d.(configs := ReadConfigs(t.configs)))
  {
    ConfigsFit(t.configs);
    ConfigsPart(d, part, CountFields(t)[2]);
  }

  lemma HeaderFold(t: Description, parts: seq<string>)
    requires Printable(t) && Shown(parts, HeaderFields(t))
    ensures Fold(HeaderPart, Seen(0, 0, map[], []), parts) == Some(NoDetails(t))
  {
    var d, n, fs := Seen(0, 0, map[], []), |t.extra| + 1, HeaderFields(t);
    forall i | 0 <= i < n ensures HeaderPart(d, parts[i]) == Some(d) {
      HeaderTopic(t.name);
      assert i > 0 ==> fs[i] == t.extra[i - 1] && fs[i] in t.extra;
      HeaderIgnores(d, parts[i], fs[i]);
    }
    assert forall i :: 0 <= i < 3 ==> CountFields(t)[i] == fs[n + i] && parts[n..][i] == parts[n + i];
    CountsFold(t, parts[n..]);
    SkipFirst(HeaderPart, d, parts, n);
  }

  lemma SkipFirst<S, T>(step: (S, T) -> Option<S>, s: S, xs: seq<T>, n: nat)
    requires n <= |xs| && forall i :: 0 <= i < n ==> step(s, xs[i]) == Some(s)
    ensures Fold(step, s, xs) == Fold(step, s, xs[n..])
  {
    assert xs == xs[..n] + xs[n..];
    FoldIgnored(step, s, xs[..n]);
    FoldAppend(step, s, xs[..n], xs[n..]);
  }

  lemma LineShown(fs: seq<Field>)
    requires fs != [] && AllFit(fs)
    ensures Shown(Parts(fs), fs)
  {
    forall i | 0 <= i < |fs| ensures Strip(Parts(fs)[i]) == fs[i].Stripped() {
      PartStripped(fs, i);
    }
  }

  lemma HeaderSeen(t: Description)
    requires Printable(t)
    ensures var h := SeenLine(HeaderFields(t));
            && Strip(PrintHeader(t)) == h && '\n' !in h && IsHeader(h) && TopicName(h) == t.name
            && Split(h, '\t') == Parts(HeaderFields(t))
  {
    var fs := HeaderFields(t);
    HeaderFits(t);
    LineSplits("", fs);
    assert "" + PrintHeader(t) == PrintHeader(t);
    assert fs[|t.extra| + 1] == CountFields(t)[0];
    LineShows(fs, |t.extra| + 1);
    LineName(fs);
  }

  lemma HeaderLine(t: Description)
    requires Printable(t)
    ensures LineStep(Seen(0, 0, map[], []), PrintHeader(t)) == Some(NoDetails(t))
  {
    HeaderSeen(t);
    HeaderFits(t);
    LineShown(HeaderFields(t));
    HeaderFold(t, Parts(HeaderFields(t)));
  }

  // ---- The partition lines ----

  lemma DetailLabels(p: string)
    ensures "Topic:" <= p ==> DetailLabel(p) == Other
    ensures "Leader:" <= p ==> DetailLabel(p) == Leader
    ensures "Replicas:" <= p ==> DetailLabel(p) == Replicas
    ensures "Isr:" <= p ==> DetailLabel(p) == Isr
  {
    assert "Partition:"[0] == 'P' && "Leader:"[0] == 'L' && "Replicas:"[0] == 'R';
    assert "Isr:"[0] == 'I' && "Topic:"[0] == 'T';
    StartDiffers(p, "Partition:", 'P');
    StartDiffers(p, "Leader:", 'L');
    StartDiffers(p, "Replicas:", 'R');
    StartDiffers(p, "Isr:", 'I');
    StartDiffers(p, "Topic:", 'T');
  }

  lemma DetailTopic(d: Detail, part: string, f: Field)
    requires f.tag == "Topic:" && Fits(f) && Strip(part) == f.Stripped()
    ensures DetailPart(d, part) == Some(d)
  {
    AfterLabel(f);
    DetailLabels(f.Stripped());
  }

  lemma DetailId(d: Detail, part: string, f: Field, n: int)
    requires f.tag == "Partition:" && f.value == PrintInt(n) && Fits(f) && Strip(part) == f.Stripped()
    ensures DetailPart(d, part) == Some(d.(partition := Some(n)))
  {
    IntFits(n);
    FieldReads(f);
    IntRoundTrip(n);
  }

  lemma LeaderReads(leader: Option<int>)
    ensures ParseInt(PrintLeader(leader)) == leader
  {
    match leader
    case None =>
      assert "" + "none" + "" == "none";
      StripUnique("", "none", "");
    case Some(id) => IntRoundTrip(id);
  }

  lemma LeaderFits(leader: Option<int>)
    ensures var s := PrintLeader(leader); Trimmed(s) && ':' !in s && '\t' !in s && '\n' !in s
  {
    match leader
    case None =>
    case Some(id) => IntFits(id);
  }

  lemma DetailLeader(d: Detail, part: string, f: Field, leader: Option<int>)
    requires f.tag == "Leader:" && f.value == PrintLeader(leader) && Fits(f) && Strip(part) == f.Stripped()
    ensures DetailPart(d, part) == if leader.None? then None else Some(d.(leader := leader))
  {
    LeaderFits(leader);
    FieldReads(f);
    DetailLabels(f.Stripped());
    LeaderReads(leader);
  }

  lemma DetailReplicas(d: Detail, part: string, f: Field, ns: seq<int>)
    requires f.tag == "Replicas:" && f.value == PrintInts(ns) && Fits(f) && Strip(part) == f.Stripped()
    ensures DetailPart(d, part) == if ns == [] then None else Some(d.(replicas := Some(ns)))
  {
    IntsFit(ns);
    FieldReads(f);
    DetailLabels(f.Stripped());
    IntsRoundTrip(ns);
  }

  lemma DetailIsr(d: Detail, part: string, f: Field, ns: seq<int>)
    requires f.tag == "Isr:" && f.value == PrintInts(ns) && Fits(f) && Strip(part) == f.Stripped()
    ensures DetailPart(d, part) == if ns == [] then None else Some(d.(isr := Some(ns)))
  {
    IntsFit(ns);
    FieldReads(f);
    DetailLabels(f.Stripped());
    IntsRoundTrip(ns);
  }

  lemma KnownFits(name: string, p: Partition)
    requires IsTopicName(name)
    ensures AllFit(KnownFields(name, p))
    ensures forall f :: f in KnownFields(name, p) ==> ':' !in f.value && |f.tag| <= 10
  {
    MoreLabels();
    NameFits(name);
    IntFits(p.id);
    LeaderFits(p.leader);
    IntsFit(p.replicas);
    IntsFit(p.isr);
  }

  lemma DetailFits(name: string, p: Partition)
    requires IsTopicName(name) && PrintablePartition(p)
    ensures AllFit(DetailFields(name, p))
  {
    KnownFits(name, p);
    FitsAfter(KnownFields(name, p), p.extra);
  }

  lemma FitsAfter(fs: seq<Field>, extra: seq<Field>)
    requires AllFit(fs) && forall f :: f in extra ==> Fits(f)
    ensures AllFit(fs + extra)
  {
  }

  lemma DetailFirst(name: string, p: Partition, parts: seq<string>)
    requires Shown(parts, KnownFields(name, p))
    ensures DetailPart(EMPTY, parts[0]) == Some(EMPTY)
    ensures DetailPart(EMPTY, parts[1]) == Some(EMPTY.(partition := Some(p.id)))
  {
    DetailTopic(EMPTY, parts[0], KnownFields(name, p)[0]);
    DetailId(EMPTY, parts[1], KnownFields(name, p)[1], p.id);
  }

  lemma DetailMiddle(d: Detail, name: string, p: Partition, parts: seq<string>)
    requires Shown(parts, KnownFields(name, p))
    ensures DetailPart(d, parts[2]) == if p.leader.None? then None else Some(d.(leader := p.leader))
  {
    DetailLeader(d, parts[2], KnownFields(name, p)[2], p.leader);
  }

  lemma DetailRest(d: Detail, name: string, p: Partition, parts: seq<string>)
    requires Shown(parts, KnownFields(name, p))
    ensures DetailPart(d, parts[3]) == if p.replicas == [] then None else Some(d.(replicas := Some(p.replicas)))
    ensures DetailPart(d, parts[4]) == if p.isr == [] then None else Some(d.(isr := Some(p.isr)))
  {
    DetailReplicas(d, parts[3], KnownFields(name, p)[3], p.replicas);
    DetailIsr(d, parts[4], KnownFields(name, p)[4], p.isr);
  }

  lemma KnownFold(name: string, p: Partition, parts: seq<string>)
    requires Shown(parts, KnownFields(name, p))
    ensures Fold(DetailPart, EMPTY, parts) == if IsPlaced(p) then Some(MeantDetail(p)) else None
  {
    var d1 := EMPTY.(partition := Some(p.id));
    var d2 := d1.(leader := p.leader);
    DetailFirst(name, p, parts);
    DetailMiddle(d1, name, p, parts);
    DetailRest(d2, name, p, parts);
    DetailRest(d2.(replicas := Some(p.replicas)), name, p, parts);
    FoldFive(DetailPart, EMPTY, EMPTY, d1, parts);
  }

  lemma FoldFive<S, T>(step: (S, T) -> Option<S>, s: S, s0: S, s1: S, xs: seq<T>)
    requires |xs| == 5 && step(s, xs[0]) == Some(s0) && step(s0, xs[1]) == Some(s1)
    ensures Fold(step, s, xs)
            == match step(s1, xs[2])
               case None => None
               case Some(s2) => match step(s2, xs[3]) case None => None case Some(t) => step(t, xs[4])
  {
    assert xs == [xs[0]] + ([xs[1]] + xs[2..]);
    FoldCons(step, s, xs[0], [xs[1]] + xs[2..]);
    FoldCons(step, s0, xs[1], xs[2..]);
    if step(s1, xs[2]).Some? {
      FoldTail(step, s1, step(s1, xs[2]).value, xs[2..]);
    }
  }

  lemma FoldTail<S, T>(step: (S, T) -> Option<S>, s: S, s0: S, xs: seq<T>)
    requires |xs| == 3 && step(s, xs[0]) == Some(s0)
    ensures Fold(step, s, xs) == match step(s0, xs[1]) case None => None case Some(t) => step(t, xs[2])
  {
    assert xs == [xs[0]] + ([xs[1]] + ([xs[2]] + []));
    FoldCons(step, s, xs[0], [xs[1]] + ([xs[2]] + []));
    FoldCons(step, s0, xs[1], [xs[2]] + []);
    if step(s0, xs[1]).Some? {
      FoldCons(step, step(s0, xs[1]).value, xs[2], []);
    }
  }

  lemma DetailIgnores(d: Detail, part: string, f: Field)
    requires DetailLabel(f.Stripped()) == Other && Strip(part) == f.Stripped()
    ensures DetailPart(d, part) == Some(d)
  {
  }

  lemma ExtraFold(d: Detail, extra: seq<Field>, parts: seq<string>)
    requires Shown(parts, extra) && forall f :: f in extra ==> DetailLabel(f.Stripped()) == Other
    ensures Fold(DetailPart, d, parts) == Some(d)
  {
    forall i | 0 <= i < |parts| ensures DetailPart(d, parts[i]) == Some(d) {
      DetailIgnores(d, parts[i], extra[i]);
    }
    FoldIgnored(DetailPart, d, parts);
  }

  lemma ShownSplit(parts: seq<string>, fs: seq<Field>, extra: seq<Field>)
    requires Shown(parts, fs + extra)
    ensures Shown(parts[..|fs|], fs) && Shown(parts[|fs|..], extra)
  {
    var all := fs + extra;
    assert forall i :: 0 <= i < |fs| ==> all[i] == fs[i];
    assert forall i :: 0 <= i < |extra| ==> all[|fs| + i] == extra[i];
  }

  lemma DetailFold(name: string, p: Partition, parts: seq<string>)
    requires PrintablePartition(p) && Shown(parts, DetailFields(name, p))
    ensures Fold(DetailPart, EMPTY, parts) == if IsPlaced(p) then Some(MeantDetail(p)) else None
  {
    ShownSplit(parts, KnownFields(name, p), p.extra);
    KnownFold(name, p, parts[..5]);
    ExtraFold(MeantDetail(p), p.extra, parts[5..]);
    assert parts == parts[..5] + parts[5..];
    FoldAppend(DetailPart, EMPTY, parts[..5], parts[5..]);
  }

  // The text that marks a header line is longer than the label of any field of a partition line.
  lemma CountText()
    ensures var sub := "PartitionCount:"; |sub| > 10 && sub[|sub| - 1] == ':' && '\t' !in sub
  {
  }

  lemma NoCount(name: string, p: Partition)
    requires IsTopicName(name) && PrintablePartition(p)
    ensures !Contains(SeenLine(DetailFields(name, p)), "PartitionCount:")
  {
    CountText();
    KnownFits(name, p);
    forall i | 0 <= i < 5 ensures !Contains(KnownFields(name, p)[i].Text(), "PartitionCount:") {
      if Contains(KnownFields(name, p)[i].Text(), "PartitionCount:") {
        ColonEnds(KnownFields(name, p)[i], "PartitionCount:");
      }
    }
    FieldsHaveNo(KnownFields(name, p), p.extra, "PartitionCount:");
  }

  lemma FieldsHaveNo(fs: seq<Field>, extra: seq<Field>, sub: string)
    requires fs != [] && '\t' !in sub && forall f :: f in extra ==> !Contains(f.Text(), sub)
    requires forall i :: 0 <= i < |fs| ==> !Contains(fs[i].Text(), sub)
    ensures !Contains(SeenLine(fs + extra), sub)
  {
    SeenLineHasNo(fs + extra, sub);
  }

  lemma StepOnDetail(d: Seen, raw: string, parts: seq<string>)
    requires !IsHeader(Strip(raw)) && IsDetail(Strip(raw)) && Split(Strip(raw), '\t') == parts
    ensures LineStep(d, raw)
            == match Fold(DetailPart, EMPTY, parts)
               case None => None
               case Some(x) => Some(if x == EMPTY then d else d.(details := d.details + [x]))
  {
  }

  /** A printed partition line is seen as one, whatever the topic is called. */
  lemma DetailSeen(name: string, p: Partition)
    requires IsTopicName(name) && PrintablePartition(p)
    ensures var l := SeenLine(DetailFields(name, p));
            && Strip(PrintDetail(name, p)) == l && '\n' !in l && !IsHeader(l) && IsDetail(l)
            && Split(l, '\t') == Parts(DetailFields(name, p))
  {
    var fs := DetailFields(name, p);
    DetailFits(name, p);
    LineSplits("\t", fs);
    LineShows(fs, 1);
    NoCount(name, p);
  }

  // What a partition line does to the state of the single-topic parser.
  function AfterDetail(d: Seen, p: Partition): Option<Seen> {
    if IsPlaced(p) then Some(d.(details := d.details + [MeantDetail(p)])) else None
  }

  lemma DetailLine(d: Seen, name: string, p: Partition)
    requires IsTopicName(name) && PrintablePartition(p)
    ensures LineStep(d, PrintDetail(name, p)) == AfterDetail(d, p)
  {
    var fs := DetailFields(name, p);
    DetailSeen(name, p);
    DetailFits(name, p);
    LineShown(fs);
    DetailFold(name, p, Parts(fs));
    StepOnDetail(d, PrintDetail(name, p), Parts(fs));
  }

  // ---- Whole topics ----

  lemma PlacedCons(ps: seq<Partition>)
    requires ps != []
    ensures Placed(ps) <==> IsPlaced(ps[0]) && Placed(ps[1..])
  {
    assert ps == [ps[0]] + ps[1..];
  }

  lemma DetailsCons(d: Seen, ps: seq<Partition>)
    requires ps != []
    ensures d.details + [MeantDetail(ps[0])] + MeantDetails(ps[1..]) == d.details + MeantDetails(ps)
  {
    assert MeantDetails(ps) == [MeantDetail(ps[0])] + MeantDetails(ps[1..]);
  }

  lemma {:induction false} DetailsFold(step: (Seen, string) -> Option<Seen>, d: Seen, ls: seq<string>,
                                       ps: seq<Partition>)
    requires |ls| == |ps| && forall e: Seen, i :: 0 <= i < |ls| ==> step(e, ls[i]) == AfterDetail(e, ps[i])
    ensures Fold(step, d, ls) == if Placed(ps) then Some(d.(details := d.details + MeantDetails(ps))) else None
    decreases ps
  {
    if ps == [] {
      assert d.details + [] == d.details;
    } else {
      PlacedCons(ps);
      assert step(d, ls[0]) == AfterDetail(d, ps[0]);
      if IsPlaced(ps[0]) {
        DetailsCons(d, ps);
        DetailsFold(step, AfterDetail(d, ps[0]).value, ls[1..], ps[1..]);
      }
    }
  }

  lemma TopicReads(t: Description)
    requires Printable(t)
    ensures ParseTopicLines(t.name, TopicLines(t)) == Outcome(t)
  {
    var start, lines := Seen(0, 0, map[], []), PrintDetails(t.name, t.details);
    HeaderLine(t);
    FoldCons(LineStep, start, PrintHeader(t), lines);
    TopicDetails(t);
    assert [] + MeantDetails(t.details) == MeantDetails(t.details);
  }

  lemma TopicDetails(t: Description)
    requires Printable(t)
    ensures var d := NoDetails(t);
            Fold(LineStep, d, PrintDetails(t.name, t.details))
            == if Placed(t.details) then Some(d.(details := [] + MeantDetails(t.details))) else None
  {
    forall e: Seen, i | 0 <= i < |t.details|
      ensures LineStep(e, PrintDetails(t.name, t.details)[i]) == AfterDetail(e, t.details[i])
    {
      DetailLine(e, t.name, t.details[i]);
    }
    DetailsFold(LineStep, NoDetails(t), PrintDetails(t.name, t.details), t.details);
  }

  function StripAll(lines: seq<string>): (r: seq<string>)
    ensures |r| == |lines| && forall i :: 0 <= i < |lines| ==> r[i] == Strip(lines[i])
  {
    if lines == [] then [] else [Strip(lines[0])] + StripAll(lines[1..])
  }

  // Lines are stripped before they are read, so stripping them first changes nothing.
  lemma {:induction false} FoldSame(d: Seen, a: seq<string>, b: seq<string>)
    requires |a| == |b| && forall i :: 0 <= i < |a| ==> Strip(a[i]) == Strip(b[i])
    ensures Fold(LineStep, d, a) == Fold(LineStep, d, b)
    decreases a
  {
    if a != [] {
      assert LineStep(d, a[0]) == LineStep(d, b[0]);
      if LineStep(d, a[0]).Some? {
        FoldSame(LineStep(d, a[0]).value, a[1..], b[1..]);
      }
    }
  }

  function BlockOf(t: Description): Block {
    Block(t.name, StripAll(TopicLines(t)))
  }

  // A line with text on it, once stripped.
  predicate IsLine(l: string) {
    Strip(l) != "" && '\n' !in Strip(l)
  }

  lemma {:induction false} DetailsAreLines(name: string, ps: seq<Partition>)
    requires IsTopicName(name) && forall p :: p in ps ==> PrintablePartition(p)
    ensures forall l :: l in PrintDetails(name, ps) ==> IsLine(l)
  {
    if ps != [] {
      DetailSeen(name, ps[0]);
      DetailsAreLines(name, ps[1..]);
    }
  }

  lemma TopicLinesAreLines(t: Description)
    requires Printable(t)
    ensures forall l :: l in TopicLines(t) ==> IsLine(l)
  {
    HeaderSeen(t);
    DetailsAreLines(t.name, t.details);
  }

  lemma {:induction false} JoinEnds(ls: seq<string>)
    requires ls != [] && forall i :: 0 <= i < |ls| ==> ls[i] != ""
    ensures var j := Join(ls, "\n"); j != "" && j[0] == ls[0][0] && j[|j| - 1] == LastChar(ls[|ls| - 1])
  {
    if |ls| > 1 {
      JoinEnds(ls[1..]);
      var rest := Join(ls[1..], "\n");
      assert ls[1..][|ls| - 2] == ls[|ls| - 1];
      assert LastChar(ls[0] + "\n" + rest) == LastChar(rest);
    }
  }

  function LastChar(s: string): char
    requires s != ""
  {
    s[|s| - 1]
  }

  /** The block handed to the single-topic parser gives back its own lines. */
  lemma BlockLines(ls: seq<string>)
    requires ls != [] && forall i :: 0 <= i < |ls| ==> ls[i] != "" && Trimmed(ls[i]) && '\n' !in ls[i]
    ensures Lines(Strip(Join(ls, "\n"))) == ls
  {
    var j := Join(ls, "\n");
    JoinEnds(ls);
    StripUnique("", j, "");
    assert "" + j + "" == j;
    LinesJoinOpen(ls);
  }

  lemma BlockReads(t: Description)
    requires Printable(t)
    ensures ParseBlock(BlockOf(t)) == Outcome(t)
  {
    var ls := StripAll(TopicLines(t));
    TopicLinesAreLines(t);
    forall i | 0 <= i < |ls|
      ensures ls[i] != "" && Trimmed(ls[i]) && '\n' !in ls[i] && Strip(ls[i]) == Strip(TopicLines(t)[i])
    {
      assert IsLine(TopicLines(t)[i]);
      StripTrims(TopicLines(t)[i]);
    }
    BlockLines(ls);
    FoldSame(Seen(0, 0, map[], []), ls, TopicLines(t));
    TopicReads(t);
  }

  // ---- The whole output ----

  lemma DetailAdds(done: seq<Block>, b: Block, name: string, p: Partition)
    requires IsTopicName(name) && PrintablePartition(p)
    ensures var l := Strip(PrintDetail(name, p));
            AddLine(done + [b], l) == done + [Block(b.name, b.lines + [l])]
  {
    DetailSeen(name, p);
    AddToOpen(done, Some(b.name), b.lines, Strip(PrintDetail(name, p)));
  }

  // A fold that goes through known states.
  lemma {:induction false} FoldThrough<S, T>(step: (S, T) -> S, states: seq<S>, ls: seq<T>, rest: seq<T>, n: nat)
    requires n <= |ls| && |states| == |ls| + 1
    requires forall i :: 0 <= i < |ls| ==> step(states[i], ls[i]) == states[i + 1]
    ensures FoldLeft(step, states[n], ls[n..] + rest) == FoldLeft(step, states[|ls|], rest)
    decreases |ls| - n
  {
    if n == |ls| {
      assert ls[n..] + rest == rest;
    } else {
      assert ls[n..] + rest == [ls[n]] + (ls[n + 1..] + rest);
      FoldLeftCons(step, states[n], ls[n], ls[n + 1..] + rest);
      FoldThrough(step, states, ls, rest, n + 1);
    }
  }

  lemma FoldLeftCons<S, T>(step: (S, T) -> S, s: S, x: T, rest: seq<T>)
    ensures FoldLeft(step, s, [x] + rest) == FoldLeft(step, step(s, x), rest)
  {
    assert ([x] + rest)[1..] == rest;
  }

  lemma HeaderOpens(done: seq<Block>, t: Description)
    requires Printable(t)
    ensures AddLine(done, Strip(PrintHeader(t))) == done + [Block(t.name, [Strip(PrintHeader(t))])]
  {
    HeaderSeen(t);
  }

  // The blocks after the header of a topic and after each of its partition lines.
  function States(done: seq<Block>, name: string, texts: seq<string>): (r: seq<seq<Block>>)
    requires texts != []
    ensures |r| == |texts|
    ensures forall i :: 0 <= i < |r| ==> r[i] == done + [Block(name, texts[..i + 1])]
  {
    seq(|texts|, i requires 0 <= i < |texts| => done + [Block(name, texts[..i + 1])])
  }

  lemma StateStep(done: seq<Block>, t: Description, i: nat)
    requires Printable(t) && i < |t.details|
    ensures var states := States(done, t.name, StripAll(TopicLines(t)));
            AddRaw(states[i], TopicLines(t)[i + 1]) == states[i + 1]
  {
    var texts := StripAll(TopicLines(t));
    DetailAdds(done, Block(t.name, texts[..i + 1]), t.name, t.details[i]);
    TakeNext(texts, i + 1, Strip(PrintDetail(t.name, t.details[i])));
  }

  lemma TopicBlocks(done: seq<Block>, t: Description, rest: seq<string>)
    requires Printable(t)
    ensures Blocks(done, TopicLines(t) + rest) == Blocks(done + [BlockOf(t)], rest)
  {
    var h, more := PrintHeader(t), PrintDetails(t.name, t.details);
    var texts := StripAll(TopicLines(t));
    var states := States(done, t.name, texts);
    forall i | 0 <= i < |more| ensures AddRaw(states[i], more[i]) == states[i + 1] {
      StateStep(done, t, i);
    }
    HeaderOpens(done, t);
    assert texts[..1] == [Strip(h)] && texts[..|more| + 1] == texts;
    HeadAndTail(AddRaw, done, h, states, more, rest);
  }

  lemma HeadAndTail(step: (seq<Block>, string) -> seq<Block>, done: seq<Block>, h: string, states: seq<seq<Block>>,
                    more: seq<string>, rest: seq<string>)
    requires |states| == |more| + 1 && step(done, h) == states[0]
    requires forall i :: 0 <= i < |more| ==> step(states[i], more[i]) == states[i + 1]
    ensures FoldLeft(step, done, [h] + more + rest) == FoldLeft(step, states[|more|], rest)
  {
    assert [h] + more + rest == [h] + (more + rest);
    FoldLeftCons(step, done, h, more + rest);
    assert more[0..] == more;
    FoldThrough(step, states, more, rest, 0);
  }

  function BlocksOf(ts: seq<Description>): (r: seq<Block>)
    ensures |r| == |ts| && forall i :: 0 <= i < |ts| ==> r[i] == BlockOf(ts[i])
  {
    if ts == [] then [] else [BlockOf(ts[0])] + BlocksOf(ts[1..])
  }

  ghost predicate AllPrintable(ts: seq<Description>) {
    forall i :: 0 <= i < |ts| ==> Printable(ts[i])
  }

  // A run that turns each piece into one block turns them all into the blocks in order.
  lemma {:induction false} Absorb<B, L(!new)>(run: (seq<B>, seq<L>) -> seq<B>, pieces: seq<seq<L>>, bs: seq<B>, n: nat)
    requires n <= |bs| == |pieces| && run(bs, []) == bs
    requires forall k, rest :: 0 <= k < |bs| ==> run(bs[..k], pieces[k] + rest) == run(bs[..k + 1], rest)
    ensures run(bs[..n], Concat(pieces[n..])) == bs
    decreases |bs| - n
  {
    if n == |bs| {
      assert bs[..n] == bs;
    } else {
      Absorb(run, pieces, bs, n + 1);
      assert pieces[n..][1..] == pieces[n + 1..];
    }
  }

  lemma TakeNext<T>(s: seq<T>, k: nat, x: T)
    requires k < |s| && s[k] == x
    ensures s[..k + 1] == s[..k] + [x]
  {
  }

  lemma NextBlock(done: seq<Block>, t: Description, after: seq<Block>, rest: seq<string>)
    requires Printable(t) && after == done + [BlockOf(t)]
    ensures Blocks(done, TopicLines(t) + rest) == Blocks(after, rest)
  {
    TopicBlocks(done, t, rest);
  }

  lemma PrintedBlocks(ts: seq<Description>)
    requires AllPrintable(ts)
    ensures Blocks([], PrintLines(ts)) == BlocksOf(ts)
  {
    var bs := BlocksOf(ts);
    forall k, rest | 0 <= k < |bs|
      ensures Blocks(bs[..k], EachTopic(ts)[k] + rest) == Blocks(bs[..k + 1], rest)
    {
      TakeNext(bs, k, BlockOf(ts[k]));
      NextBlock(bs[..k], ts[k], bs[..k + 1], rest);
    }
    Absorb(Blocks, EachTopic(ts), bs, 0);
    assert EachTopic(ts)[0..] == EachTopic(ts) && bs[..0] == [];
  }

  function MeantAll(ts: seq<Description>): (r: seq<Topic>)
    ensures |r| == |ts| && forall i :: 0 <= i < |ts| ==> r[i] == Meant(ts[i])
  {
    if ts == [] then [] else [Meant(ts[0])] + MeantAll(ts[1..])
  }

  function ReadAll(ts: seq<Description>): (r: seq<Topic>)
    ensures |r| == |ts| && forall i :: 0 <= i < |ts| ==> r[i] == Read(ts[i])
  {
    if ts == [] then [] else [Read(ts[0])] + ReadAll(ts[1..])
  }

  ghost predicate AllPlaced(ts: seq<Description>) {
    forall i :: 0 <= i < |ts| ==> Placed(ts[i].details)
  }

  lemma {:induction false} CollectOutcomes(rs: seq<Option<Topic>>, ts: seq<Description>)
    requires |rs| == |ts| && forall i :: 0 <= i < |ts| ==> rs[i] == Outcome(ts[i])
    ensures Collect(rs) == if AllPlaced(ts) then Some(ReadAll(ts)) else None
  {
    if ts != [] {
      CollectOutcomes(rs[1..], ts[1..]);
      assert AllPlaced(ts) <==> Placed(ts[0].details) && AllPlaced(ts[1..]) by {
        assert forall i :: 0 < i < |ts| ==> ts[i] == ts[1..][i - 1];
      }
    }
  }

  lemma PrintedLinesAreLines(ts: seq<Description>)
    requires AllPrintable(ts)
    ensures forall l :: l in PrintLines(ts) ==> '\n' !in l
    ensures ts != [] ==> PrintLines(ts) != []
  {
    forall l | l in PrintLines(ts) ensures '\n' !in l {
      var i := PieceOf(EachTopic(ts), l);
      TopicLinesPlain(ts[i]);
    }
  }

  lemma {:induction false} PieceOf<T>(pieces: seq<seq<T>>, x: T) returns (i: nat)
    requires x in Concat(pieces)
    ensures i < |pieces| && x in pieces[i]
  {
    if x in pieces[0] {
      return 0;
    }
    var j := PieceOf(pieces[1..], x);
    return j + 1;
  }

  lemma TopicLinesPlain(t: Description)
    requires Printable(t)
    ensures forall l :: l in TopicLines(t) ==> '\n' !in l
  {
    HeaderFits(t);
    TextsPlain(HeaderFields(t));
    forall l | l in PrintDetails(t.name, t.details) ensures '\n' !in l {
      var i :| 0 <= i < |t.details| && l == PrintDetails(t.name, t.details)[i];
      DetailFits(t.name, t.details[i]);
      TextsPlain(DetailFields(t.name, t.details[i]));
    }
  }

  lemma TextsPlain(fs: seq<Field>)
    requires AllFit(fs)
    ensures '\n' !in Line(fs)
  {
    forall p | p in Texts(fs) ensures '\n' !in p {
      var i :| 0 <= i < |fs| && Texts(fs)[i] == p;
      assert Fits(fs[i]);
    }
    JoinHasNo(Texts(fs), '\n');
  }

  /** Every printed list of topics is read topic by topic, in order, if every partition has a
      leader, a replica and an in-sync replica; otherwise reading it raises an error. Columns
      the parser does not know are passed over. */
  lemma ListingReads(ts: seq<Description>)
    requires AllPrintable(ts)
    ensures ParseAll(Print(ts)) == if AllPlaced(ts) then Some(ReadAll(ts)) else None
  {
    if ts != [] {
      PrintedLinesAreLines(ts);
      LinesJoin(PrintLines(ts));
    }
    PrintedBlocks(ts);
    BlocksOutcome(ts);
  }

  ghost predicate AllDistinct(ts: seq<Description>) {
    forall i :: 0 <= i < |ts| ==> DistinctKeys(ts[i].configs)
  }

  ghost predicate AllWithoutCommas(ts: seq<Description>) {
    forall i :: 0 <= i < |ts| ==> NoCommas(ts[i].configs)
  }

  lemma ReadAllIff(ts: seq<Description>)
    requires AllPrintable(ts) && AllDistinct(ts)
    ensures ReadAll(ts) == MeantAll(ts) <==> AllWithoutCommas(ts)
  {
    forall i | 0 <= i < |ts| ensures ReadAll(ts)[i] == MeantAll(ts)[i] <==> NoCommas(ts[i].configs) {
      ReadIff(ts[i]);
    }
    if AllWithoutCommas(ts) {
      assert forall i :: 0 <= i < |ts| ==> ReadAll(ts)[i] == MeantAll(ts)[i];
    }
  }

  /** A printed list of topics reads back as itself, in order, with its configurations and
      partitions, exactly when every partition has a leader, a replica and an in-sync replica
      and no configuration key or value holds a comma. Only the partitions can make the
      parser raise. */
  lemma DescribeRoundTrip(ts: seq<Description>)
    requires AllPrintable(ts) && AllDistinct(ts)
    ensures ParseAll(Print(ts)) == Some(MeantAll(ts)) <==> AllPlaced(ts) && AllWithoutCommas(ts)
    ensures ParseAll(Print(ts)) == None <==> !AllPlaced(ts)
  {
    ListingReads(ts);
    ReadAllIff(ts);
  }

  lemma BlocksOutcome(ts: seq<Description>)
    requires AllPrintable(ts)
    ensures ParseBlocks(BlocksOf(ts)) == if AllPlaced(ts) then Some(ReadAll(ts)) else None
  {
    forall i | 0 <= i < |ts| ensures Results(BlocksOf(ts))[i] == Outcome(ts[i]) {
      BlockReads(ts[i]);
    }
    CollectOutcomes(Results(BlocksOf(ts)), ts);
  }

  /** A partition whose brokers are all down: no leader and no replica in sync. */
  function Offline(name: string, replica: int): Description {
    Description(name, [], 1, 1, [], [Partition(0, None, [replica], [], [])])
  }

  /** One such topic, wherever it stands, fails the listing of them all. */
  lemma OfflineFailsListing(before: seq<Description>, after: seq<Description>, replica: int)
    requires AllPrintable(before) && AllPrintable(after)
    ensures ParseAll(Print(before + [Offline("orders", replica)] + after)) == None
  {
    var t := Offline("orders", replica);
    OfflinePrints(t.name, replica);
    PrintableAround(before, t, after);
    assert (before + [t] + after)[|before|] == t;
    ListingReads(before + [t] + after);
  }

  lemma OfflinePrints(name: string, replica: int)
    requires IsTopicName(name)
    ensures Printable(Offline(name, replica)) && !Placed(Offline(name, replica).details)
  {
    var p := Offline(name, replica).details[0];
    assert p in Offline(name, replica).details && !IsPlaced(p);
  }

  lemma PrintableAround(before: seq<Description>, t: Description, after: seq<Description>)
    requires AllPrintable(before) && Printable(t) && AllPrintable(after)
    ensures AllPrintable(before + [t] + after)
  {
    var ts := before + [t] + after;
    assert forall i :: |before| < i < |ts| ==> ts[i] == after[i - |before| - 1];
  }

  /** A healthy topic with one configured value. */
  function Configured(key: string, value: string): Description {
    Description("orders", [], 1, 1, [(key, value)], [Partition(0, Some(1), [1], [1], [])])
  }

  lemma ConfiguredPrints(key: string, value: string)
    requires IsConfigText(key) && '=' !in key && IsConfigText(value)
    ensures Printable(Configured(key, value)) && Placed(Configured(key, value).details)
  {
    var t := Configured(key, value);
    OfflinePrints(t.name, 0);
    assert forall p :: p in t.details ==> p == t.details[0];
  }

  lemma PolicyWords()
    ensures var k, v, b := "cleanup.policy", "compact", "delete";
            && IsConfigText(k) && IsConfigText(v) && IsConfigText(v + "," + b)
            && ',' !in k + v + b && '=' !in k + b
  {
  }

  lemma ValueCut(k: string, v: string, b: string)
    requires IsConfigText(k) && IsConfigText(v) && IsConfigText(v + "," + b)
    requires ',' !in k + v + b && '=' !in k + b
    ensures var t := Configured(k, v + "," + b);
            && Printable(t) && DistinctKeys(t.configs) && Placed(t.details)
            && ParseAll(Print([t])) == Some([Meant(Configured(k, v))])
            && ParseAll(Print([t])) != Some(MeantAll([t]))
  {
    var t, u := Configured(k, v + "," + b), Configured(k, v);
    ConfiguredPrints(k, v + "," + b);
    ListingReads([t]);
    SecondValueDropped(k, v, b);
    assert MeantConfigs(u.configs[..0]) == map[] && MeantConfigs(u.configs) == map[k := v];
    assert k in map[k := v];
    assert Read(t) == Meant(u);
    assert ReadAll([t]) == [Meant(u)];
    assert t.configs[0] in t.configs && (v + "," + b)[|v|] == ',';
    DescribeRoundTrip([t]);
  }

  /** A topic that Kafka compacts and deletes from is listed as compacted only, and nothing
      raises. */
  lemma SecondPolicyDropped()
    ensures var t := Configured("cleanup.policy", "compact,delete");
            && Printable(t) && DistinctKeys(t.configs) && Placed(t.details)
            && ParseAll(Print([t])) == Some([Meant(Configured("cleanup.policy", "compact"))])
            && ParseAll(Print([t])) != Some(MeantAll([t]))
  {
    PolicyWords();
    assert "compact" + "," + "delete" == "compact,delete";
    ValueCut("cleanup.policy", "compact", "delete");
  }

  // ---- One topic at a time ----

  /** Text stripped as a whole keeps its lines, up to whitespace around them. */
  lemma StrippedText(ls: seq<string>) returns (kept: seq<string>)
    requires ls != [] && forall l :: l in ls ==> '\n' !in l
    requires ls[0] != "" && !IsSpace(ls[0][0]) && Strip(ls[|ls| - 1]) != ""
    ensures Lines(Strip(Join(ls, "\n") + "\n")) == kept
    ensures |kept| == |ls| && forall i :: 0 <= i < |ls| ==> Strip(kept[i]) == Strip(ls[i])
  {
    var n := |ls| - 1;
    var last := ls[n];
    RStripShape(last);
    var m :| 0 <= m <= |last| && RStrip(last) == last[..m] && forall j :: m <= j < |last| ==> IsSpace(last[j]);
    StripRStrip(last);
    kept := ls[..n] + [last[..m]];
    EndOfText(ls[..n], last, m);
    assert ls == ls[..n] + [last];
    assert forall c :: c in last[..m] ==> c in last;
    assert forall l :: l in kept ==> l in ls || l == last[..m];
    LinesJoinOpen(kept);
  }

  lemma EndOfText(init: seq<string>, last: string, m: nat)
    requires 0 < m <= |last| && !IsSpace(last[m - 1]) && AllSpace(last[m..])
    requires var first := (init + [last])[0]; first != "" && !IsSpace(first[0])
    ensures Strip(Join(init + [last], "\n") + "\n") == Join(init + [last[..m]], "\n")
  {
    var start := if init == [] then "" else Join(init, "\n") + "\n";
    if init != [] {
      JoinSnoc(init, last, "\n");
      JoinSnoc(init, last[..m], "\n");
    }
    assert Join(init + [last], "\n") == start + last && Join(init + [last[..m]], "\n") == start + last[..m];
    var t, tail := start + last[..m], last[m..] + "\n";
    assert "" + t + tail == start + last + "\n";
    assert t[|t| - 1] == last[m - 1];
    assert t[0] == (init + [last])[0][0];
    StripUnique("", t, tail);
  }

  lemma ConcatOne<T>(piece: seq<T>)
    ensures Concat([piece]) == piece
  {
    assert [piece] == [piece] + [] && piece + [] == piece;
    assert ([piece] + [])[1..] == [];
  }

  /** Describing one topic alone gives what its block gives in the full listing. */
  lemma OneTopicOutcome(t: Description)
    requires Printable(t)
    ensures ParseTopic(t.name, Print([t])) == Outcome(t)
  {
    var ls := TopicLines(t);
    assert EachTopic([t]) == [ls];
    ConcatOne(ls);
    TopicLinesPlain(t);
    TopicLinesAreLines(t);
    TopicStartsPlain(t);
    assert IsLine(ls[|ls| - 1]);
    var kept := StrippedText(ls);
    FoldSame(Seen(0, 0, map[], []), kept, ls);
    TopicReads(t);
  }

  /** So it reads back under the same condition. */
  lemma OneTopicReads(t: Description)
    requires Printable(t) && DistinctKeys(t.configs)
    ensures ParseTopic(t.name, Print([t])) == Some(Meant(t)) <==> Placed(t.details) && NoCommas(t.configs)
    ensures ParseTopic(t.name, Print([t])) == None <==> !Placed(t.details)
  {
    OneTopicOutcome(t);
    ReadIff(t);
  }

  lemma TopicStartsPlain(t: Description)
    ensures TopicLines(t)[0] != "" && TopicLines(t)[0][0] == 'T'
  {
    JoinStarts(Texts(HeaderFields(t)));
  }

  lemma JoinStarts(parts: seq<string>)
    requires parts != []
    ensures parts[0] <= Join(parts, "\t")
  {
  }

  /** What describing one topic alone gives. */
  function ParsedAlone(t: Description): Option<Topic> {
    ParseTopic(t.name, Print([t]))
  }

  function Alone(ts: seq<Description>): (r: seq<Option<Topic>>)
    ensures |r| == |ts| && forall i :: 0 <= i < |ts| ==> r[i] == ParsedAlone(ts[i])
  {
    if ts == [] then [] else [ParsedAlone(ts[0])] + Alone(ts[1..])
  }

  /** The multi-topic parser agrees with the single-topic parser run on each topic alone. */
  lemma ListingAgreesWithSingles(ts: seq<Description>)
    requires AllPrintable(ts)
    ensures ParseAll(Print(ts)) == Collect(Alone(ts))
  {
    ListingReads(ts);
    forall i | 0 <= i < |ts| ensures Alone(ts)[i] == Outcome(ts[i]) {
      OneTopicOutcome(ts[i]);
    }
    CollectOutcomes(Alone(ts), ts);
  }
}
