/** What the partition distribution makes of the printed descriptions of topics. */
module DistributionFormat {
  import opened Wrappers
  import opened Text
  import opened Decimal
  import opened TopicDescribe
  import opened DescribeFormat
  import opened PartitionDistribution
  import opened Sorting

  // ---- What the printed lines stand for ----

  /** A column whose label the distribution does not know. */
  predicate PassedOver(f: Field) {
    DetailLabel(f.Stripped()) == Other && !("Topic:" <= f.Stripped())
  }

  predicate PlainColumns(t: Description) {
    && (forall f :: f in t.extra ==> PassedOver(f))
    && forall p, f :: p in t.details && f in p.extra ==> PassedOver(f)
  }

  ghost predicate AllPlain(ts: seq<Description>) {
    forall i :: 0 <= i < |ts| ==> PlainColumns(ts[i])
  }

  /** A header with the text that marks a partition line somewhere in it. */
  predicate Mistaken(t: Description) {
    Contains(SeenLine(HeaderFields(t)), "Partition:")
  }

  function RecordOf(name: string, p: Partition): Record {
    Record(name, Entry(p.id, if p.leader.Some? then p.leader.value else -1, p.replicas, p.isr))
  }

  function PartitionRecords(name: string, ps: seq<Partition>): (r: seq<Record>)
    ensures |r| == |ps| && forall i :: 0 <= i < |ps| ==> r[i] == RecordOf(name, ps[i])
  {
    if ps == [] then [] else [RecordOf(name, ps[0])] + PartitionRecords(name, ps[1..])
  }

  /** The partitions of all topics, in order, as printed. */
  function MeantRecords(ts: seq<Description>): seq<Record> {
    if ts == [] then [] else PartitionRecords(ts[0].name, ts[0].details) + MeantRecords(ts[1..])
  }

  /** A mistaken header counts as a partition of its topic about which nothing is known. */
  function HeaderRecords(t: Description): seq<Record> {
    if Mistaken(t) then [Record(t.name, Entry(0, -1, [], []))] else []
  }

  function ReadRecords(ts: seq<Description>): seq<Record> {
    if ts == [] then []
    else HeaderRecords(ts[0]) + PartitionRecords(ts[0].name, ts[0].details) + ReadRecords(ts[1..])
  }

  // ---- One part of a line ----

  lemma NotTopic(p: string)
    ensures "Partition:" <= p ==> !("Topic:" <= p)
    ensures "Leader:" <= p || "Replicas:" <= p || "Isr:" <= p ==> !("Topic:" <= p)
  {
    assert "Partition:"[0] == 'P' && "Leader:"[0] == 'L' && "Replicas:"[0] == 'R';
    assert "Isr:"[0] == 'I' && "Topic:"[0] == 'T';
    StartDiffers(p, "Partition:", 'P');
    StartDiffers(p, "Leader:", 'L');
    StartDiffers(p, "Replicas:", 'R');
    StartDiffers(p, "Isr:", 'I');
    StartDiffers(p, "Topic:", 'T');
  }

  lemma RecordTopic(r: Record, part: string, f: Field)
    requires f.tag == "Topic:" && Fits(f) && Strip(part) == f.Stripped()
    ensures RecordPart(r, part) == Some(r.(topic := f.value))
  {
    FieldReads(f);
  }

  lemma RecordId(r: Record, part: string, f: Field, n: int)
    requires f.tag == "Partition:" && f.value == PrintInt(n) && Fits(f) && Strip(part) == f.Stripped()
    ensures RecordPart(r, part) == Some(r.(entry := r.entry.(partition := n)))
  {
    IntFits(n);
    FieldReads(f);
    NotTopic(f.Stripped());
    IntRoundTrip(n);
  }

  lemma RecordLeader(r: Record, part: string, f: Field, leader: Option<int>)
    requires f.tag == "Leader:" && f.value == PrintLeader(leader) && Fits(f) && Strip(part) == f.Stripped()
    ensures RecordPart(r, part)
            == if leader.None? then None else Some(r.(entry := r.entry.(leader := leader.value)))
  {
    LeaderFits(leader);
    FieldReads(f);
    NotTopic(f.Stripped());
    DetailLabels(f.Stripped());
    LeaderReads(leader);
  }

  lemma RecordReplicas(r: Record, part: string, f: Field, ns: seq<int>)
    requires f.tag == "Replicas:" && f.value == PrintInts(ns) && Fits(f) && Strip(part) == f.Stripped()
    ensures RecordPart(r, part) == if ns == [] then None else Some(r.(entry := r.entry.(replicas := ns)))
  {
    IntsFit(ns);
    FieldReads(f);
    NotTopic(f.Stripped());
    DetailLabels(f.Stripped());
    IntsRoundTrip(ns);
  }

  lemma RecordIsr(r: Record, part: string, f: Field, ns: seq<int>)
    requires f.tag == "Isr:" && f.value == PrintInts(ns) && Fits(f) && Strip(part) == f.Stripped()
    ensures RecordPart(r, part) == if ns == [] then None else Some(r.(entry := r.entry.(isr := ns)))
  {
    IntsFit(ns);
    FieldReads(f);
    NotTopic(f.Stripped());
    DetailLabels(f.Stripped());
    IntsRoundTrip(ns);
  }

  lemma RecordIgnores(r: Record, part: string, f: Field)
    requires PassedOver(f) && Strip(part) == f.Stripped()
    ensures RecordPart(r, part) == Some(r)
  {
  }

  // ---- A partition line ----

  lemma FirstParts(name: string, p: Partition, parts: seq<string>)
    requires Shown(parts, KnownFields(name, p))
    ensures RecordPart(DEFAULT, parts[0]) == Some(DEFAULT.(topic := name))
    ensures var r := DEFAULT.(topic := name);
            RecordPart(r, parts[1]) == Some(r.(entry := r.entry.(partition := p.id)))
  {
    RecordTopic(DEFAULT, parts[0], KnownFields(name, p)[0]);
    RecordId(DEFAULT.(topic := name), parts[1], KnownFields(name, p)[1], p.id);
  }

  lemma LeaderPart(r: Record, name: string, p: Partition, parts: seq<string>)
    requires Shown(parts, KnownFields(name, p))
    ensures RecordPart(r, parts[2])
            == if p.leader.None? then None else Some(r.(entry := r.entry.(leader := p.leader.value)))
  {
    RecordLeader(r, parts[2], KnownFields(name, p)[2], p.leader);
  }

  lemma ListParts(r: Record, name: string, p: Partition, parts: seq<string>)
    requires Shown(parts, KnownFields(name, p))
    ensures RecordPart(r, parts[3])
            == if p.replicas == [] then None else Some(r.(entry := r.entry.(replicas := p.replicas)))
    ensures RecordPart(r, parts[4]) == if p.isr == [] then None else Some(r.(entry := r.entry.(isr := p.isr)))
  {
    RecordReplicas(r, parts[3], KnownFields(name, p)[3], p.replicas);
    RecordIsr(r, parts[4], KnownFields(name, p)[4], p.isr);
  }

  lemma KnownRecord(name: string, p: Partition, parts: seq<string>)
    requires Shown(parts, KnownFields(name, p))
    ensures Fold(RecordPart, DEFAULT, parts) == if IsPlaced(p) then Some(RecordOf(name, p)) else None
  {
    var r0 := DEFAULT.(topic := name);
    var r1 := r0.(entry := r0.entry.(partition := p.id));
    FirstParts(name, p, parts);
    LeaderPart(r1, name, p, parts);
    if p.leader.Some? {
      var r2 := r1.(entry := r1.entry.(leader := p.leader.value));
      ListParts(r2, name, p, parts);
      ListParts(r2.(entry := r2.entry.(replicas := p.replicas)), name, p, parts);
    }
    FoldFive(RecordPart, DEFAULT, r0, r1, parts);
  }

  lemma ExtraRecord(r: Record, extra: seq<Field>, parts: seq<string>)
    requires Shown(parts, extra) && forall f :: f in extra ==> PassedOver(f)
    ensures Fold(RecordPart, r, parts) == Some(r)
  {
    forall i | 0 <= i < |parts| ensures RecordPart(r, parts[i]) == Some(r) {
      RecordIgnores(r, parts[i], extra[i]);
    }
    FoldIgnored(RecordPart, r, parts);
  }

  lemma PartitionParts(name: string, p: Partition, parts: seq<string>)
    requires Shown(parts, DetailFields(name, p)) && forall f :: f in p.extra ==> PassedOver(f)
    ensures Fold(RecordPart, DEFAULT, parts) == if IsPlaced(p) then Some(RecordOf(name, p)) else None
  {
    ShownSplit(parts, KnownFields(name, p), p.extra);
    KnownRecord(name, p, parts[..5]);
    ExtraRecord(RecordOf(name, p), p.extra, parts[5..]);
    assert parts == parts[..5] + parts[5..];
    FoldAppend(RecordPart, DEFAULT, parts[..5], parts[5..]);
  }

  // What a partition line adds to the records.
  function AfterPartition(recs: seq<Record>, name: string, p: Partition): Option<seq<Record>> {
    if IsPlaced(p) then Some(recs + [RecordOf(name, p)]) else None
  }

  lemma RecordOnDetail(recs: seq<Record>, raw: string, parts: seq<string>)
    requires IsDetail(Strip(raw)) && Split(Strip(raw), '\t') == parts
    ensures RecordLine(recs, raw)
            == match Fold(RecordPart, DEFAULT, parts)
               case None => None
               case Some(r) => Some(if r.topic == "" then recs else recs + [r])
  {
  }

  lemma PartitionLine(recs: seq<Record>, name: string, p: Partition)
    requires IsTopicName(name) && PrintablePartition(p) && forall f :: f in p.extra ==> PassedOver(f)
    ensures RecordLine(recs, PrintDetail(name, p)) == AfterPartition(recs, name, p)
  {
    var fs := DetailFields(name, p);
    DetailSeen(name, p);
    DetailFits(name, p);
    LineShown(fs);
    PartitionParts(name, p, Parts(fs));
    RecordOnDetail(recs, PrintDetail(name, p), Parts(fs));
  }

  // ---- A header line ----

  lemma PartitionCountLabel(p: string)
    ensures "PartitionCount:" <= p ==> DetailLabel(p) == Other && !("Topic:" <= p)
  {
    assert "PartitionCount:"[9] == 'C' && "Partition:"[9] == ':';
    assert "PartitionCount:"[0] == 'P' && "Leader:"[0] == 'L' && "Replicas:"[0] == 'R';
    assert "Isr:"[0] == 'I' && "Topic:"[0] == 'T';
  }

  lemma FactorLabel(p: string)
    ensures "ReplicationFactor:" <= p ==> DetailLabel(p) == Other && !("Topic:" <= p)
  {
    assert "ReplicationFactor:"[7] == 't' && "Replicas:"[7] == 's';
    assert "ReplicationFactor:"[0] == 'R' && "Partition:"[0] == 'P' && "Leader:"[0] == 'L';
    assert "Isr:"[0] == 'I' && "Topic:"[0] == 'T';
  }

  lemma ConfigsLabel(p: string)
    ensures "Configs:" <= p ==> DetailLabel(p) == Other && !("Topic:" <= p)
  {
    assert "Configs:"[0] == 'C' && "Partition:"[0] == 'P' && "Leader:"[0] == 'L';
    assert "Replicas:"[0] == 'R' && "Isr:"[0] == 'I' && "Topic:"[0] == 'T';
  }

  lemma CountPassed(f: Field)
    requires Fits(f) && (f.tag == "PartitionCount:" || f.tag == "ReplicationFactor:" || f.tag == "Configs:")
    ensures PassedOver(f)
  {
    AfterLabel(f);
    PartitionCountLabel(f.Stripped());
    FactorLabel(f.Stripped());
    ConfigsLabel(f.Stripped());
  }

  lemma CountsPassed(t: Description)
    requires GoodPairs(t.configs)
    ensures forall f :: f in CountFields(t) ==> PassedOver(f)
  {
    CountsFit(t);
    CountPassed(CountFields(t)[0]);
    CountPassed(CountFields(t)[1]);
    CountPassed(CountFields(t)[2]);
  }

  lemma RestPassed(t: Description)
    requires Printable(t) && PlainColumns(t)
    ensures HeaderFields(t)[1..] == t.extra + CountFields(t)
    ensures forall f :: f in HeaderFields(t)[1..] ==> PassedOver(f)
  {
    CountsPassed(t);
    assert HeaderFields(t)[1..] == t.extra + CountFields(t);
  }

  lemma HeaderParts(t: Description, parts: seq<string>)
    requires Printable(t) && PlainColumns(t) && Shown(parts, HeaderFields(t))
    ensures Fold(RecordPart, DEFAULT, parts) == Some(DEFAULT.(topic := t.name))
  {
    var fs := HeaderFields(t);
    RestPassed(t);
    RecordTopic(DEFAULT, parts[0], fs[0]);
    assert parts == [parts[0]] + parts[1..];
    FoldCons(RecordPart, DEFAULT, parts[0], parts[1..]);
    ExtraRecord(DEFAULT.(topic := t.name), fs[1..], parts[1..]);
  }

  lemma HeaderRecord(recs: seq<Record>, t: Description)
    requires Printable(t) && PlainColumns(t)
    ensures RecordLine(recs, PrintHeader(t)) == Some(recs + HeaderRecords(t))
  {
    var fs := HeaderFields(t);
    HeaderSeen(t);
    HeaderFits(t);
    if IsDetail(SeenLine(fs)) {
      LineShown(fs);
      HeaderParts(t, Parts(fs));
      RecordOnDetail(recs, PrintHeader(t), Parts(fs));
    } else {
      assert recs + [] == recs;
    }
  }

  // ---- Whole listings ----

  lemma PartitionsCons(recs: seq<Record>, name: string, ps: seq<Partition>)
    requires ps != []
    ensures recs + [RecordOf(name, ps[0])] + PartitionRecords(name, ps[1..]) == recs + PartitionRecords(name, ps)
  {
    assert PartitionRecords(name, ps) == [RecordOf(name, ps[0])] + PartitionRecords(name, ps[1..]);
  }

  lemma {:induction false} PartitionsFold(step: (seq<Record>, string) -> Option<seq<Record>>, recs: seq<Record>,
                                          ls: seq<string>, name: string, ps: seq<Partition>)
    requires |ls| == |ps|
    requires forall r: seq<Record>, i :: 0 <= i < |ls| ==> step(r, ls[i]) == AfterPartition(r, name, ps[i])
    ensures Fold(step, recs, ls) == if Placed(ps) then Some(recs + PartitionRecords(name, ps)) else None
    decreases ps
  {
    if ps == [] {
      assert recs + [] == recs;
    } else {
      PlacedCons(ps);
      assert step(recs, ls[0]) == AfterPartition(recs, name, ps[0]);
      if IsPlaced(ps[0]) {
        PartitionsCons(recs, name, ps);
        PartitionsFold(step, recs + [RecordOf(name, ps[0])], ls[1..], name, ps[1..]);
      }
    }
  }

  // What the lines of a topic add to the records.
  function TopicOutput(t: Description): Option<seq<Record>> {
    if Placed(t.details) then Some(HeaderRecords(t) + PartitionRecords(t.name, t.details)) else None
  }

  function Added<T>(recs: seq<T>, out: Option<seq<T>>): Option<seq<T>> {
    match out case None => None case Some(more) => Some(recs + more)
  }

  lemma TopicRecords(recs: seq<Record>, t: Description)
    requires Printable(t) && PlainColumns(t)
    ensures Fold(RecordLine, recs, TopicLines(t)) == Added(recs, TopicOutput(t))
  {
    var lines := PrintDetails(t.name, t.details);
    HeaderRecord(recs, t);
    FoldCons(RecordLine, recs, PrintHeader(t), lines);
    forall r: seq<Record>, i | 0 <= i < |lines|
      ensures RecordLine(r, lines[i]) == AfterPartition(r, t.name, t.details[i])
    {
      PartitionLine(r, t.name, t.details[i]);
    }
    PartitionsFold(RecordLine, recs + HeaderRecords(t), lines, t.name, t.details);
    ConcatInOrder(recs, HeaderRecords(t), PartitionRecords(t.name, t.details));
  }

  function Gathered<T>(outs: seq<Option<seq<T>>>): Option<seq<T>> {
    if outs == [] then Some([])
    else
      match (outs[0], Gathered(outs[1..]))
      case (Some(a), Some(b)) => Some(a + b)
      case _ => None
  }

  lemma {:induction false} FoldPieces<T, L(!new)>(step: (seq<T>, L) -> Option<seq<T>>, recs: seq<T>,
                                                  pieces: seq<seq<L>>, outs: seq<Option<seq<T>>>)
    requires |pieces| == |outs|
    requires forall r: seq<T>, i :: 0 <= i < |pieces| ==> Fold(step, r, pieces[i]) == Added(r, outs[i])
    ensures Fold(step, recs, Concat(pieces)) == Added(recs, Gathered(outs))
    decreases pieces
  {
    if pieces == [] {
      assert recs + [] == recs;
    } else {
      FoldAppend(step, recs, pieces[0], Concat(pieces[1..]));
      assert Fold(step, recs, pieces[0]) == Added(recs, outs[0]);
      if outs[0].Some? {
        FoldPieces(step, recs + outs[0].value, pieces[1..], outs[1..]);
        if Gathered(outs[1..]).Some? {
          ConcatInOrder(recs, outs[0].value, Gathered(outs[1..]).value);
        }
      }
    }
  }

  function Outputs(ts: seq<Description>): (r: seq<Option<seq<Record>>>)
    ensures |r| == |ts| && forall i :: 0 <= i < |ts| ==> r[i] == TopicOutput(ts[i])
  {
    if ts == [] then [] else [TopicOutput(ts[0])] + Outputs(ts[1..])
  }

  lemma PlacedFirst(ts: seq<Description>)
    requires ts != []
    ensures AllPlaced(ts) <==> Placed(ts[0].details) && AllPlaced(ts[1..])
  {
    assert forall i :: 0 < i < |ts| ==> ts[i] == ts[1..][i - 1];
  }

  lemma {:induction false} GatheredOutputs(ts: seq<Description>)
    ensures Gathered(Outputs(ts)) == if AllPlaced(ts) then Some(ReadRecords(ts)) else None
  {
    if ts != [] {
      PlacedFirst(ts);
      GatheredOutputs(ts[1..]);
      assert Outputs(ts)[1..] == Outputs(ts[1..]);
    }
  }

  lemma LinesRecords(ts: seq<Description>)
    requires AllPrintable(ts) && AllPlain(ts)
    ensures Fold(RecordLine, [], PrintLines(ts)) == if AllPlaced(ts) then Some(ReadRecords(ts)) else None
  {
    forall r: seq<Record>, i | 0 <= i < |ts|
      ensures Fold(RecordLine, r, EachTopic(ts)[i]) == Added(r, Outputs(ts)[i])
    {
      TopicRecords(r, ts[i]);
    }
    FoldPieces(RecordLine, [], EachTopic(ts), Outputs(ts));
    GatheredOutputs(ts);
    assert [] + ReadRecords(ts) == ReadRecords(ts);
  }

  lemma {:induction false} SameRecords(recs: seq<Record>, a: seq<string>, b: seq<string>)
    requires |a| == |b| && forall i :: 0 <= i < |a| ==> Strip(a[i]) == Strip(b[i])
    ensures Fold(RecordLine, recs, a) == Fold(RecordLine, recs, b)
    decreases a
  {
    if a != [] {
      assert RecordLine(recs, a[0]) == RecordLine(recs, b[0]);
      if RecordLine(recs, a[0]).Some? {
        SameRecords(RecordLine(recs, a[0]).value, a[1..], b[1..]);
      }
    }
  }

  lemma EndLinesShow(ts: seq<Description>)
    requires ts != [] && AllPrintable(ts)
    ensures var ls := PrintLines(ts);
            ls != [] && ls[0] != "" && !IsSpace(ls[0][0]) && Strip(ls[|ls| - 1]) != ""
  {
    var ls := PrintLines(ts);
    PrintedLinesAreLines(ts);
    var last := ls[|ls| - 1];
    var i := PieceOf(EachTopic(ts), last);
    TopicLinesAreLines(ts[i]);
    FirstLine(ts);
    TopicStartsPlain(ts[0]);
  }

  lemma FirstLine(ts: seq<Description>)
    requires ts != []
    ensures PrintLines(ts) != [] && PrintLines(ts)[0] == TopicLines(ts[0])[0]
  {
  }

  lemma StrippedRecords(ls: seq<string>)
    requires ls != [] && forall l :: l in ls ==> '\n' !in l
    requires ls[0] != "" && !IsSpace(ls[0][0]) && Strip(ls[|ls| - 1]) != ""
    ensures Records(Join(ls, "\n") + "\n") == Fold(RecordLine, [], ls)
  {
    var kept := StrippedText(ls);
    SameRecords([], kept, ls);
  }

  /** The records of every printed list of topics, with any columns the parser does not know:
      the printed partitions, topic by topic in order, and one more for each header that is
      mistaken for a partition line; None exactly when some partition is not placed. */
  lemma PrintedRecords(ts: seq<Description>)
    requires AllPrintable(ts) && AllPlain(ts)
    ensures Records(Print(ts)) == if AllPlaced(ts) then Some(ReadRecords(ts)) else None
  {
    if ts == [] {
      assert Lines(Strip("")) == [];
    } else {
      LinesRecords(ts);
      PrintedLinesAreLines(ts);
      EndLinesShow(ts);
      StrippedRecords(PrintLines(ts));
    }
  }

  // ---- When the records are what was printed ----

  function MistakenCount(ts: seq<Description>): nat {
    if ts == [] then 0 else (if Mistaken(ts[0]) then 1 else 0) + MistakenCount(ts[1..])
  }

  lemma {:induction false} RecordLengths(ts: seq<Description>)
    ensures |ReadRecords(ts)| == |MeantRecords(ts)| + MistakenCount(ts)
    ensures MistakenCount(ts) == 0 ==> ReadRecords(ts) == MeantRecords(ts)
    ensures MistakenCount(ts) == 0 <==> forall i :: 0 <= i < |ts| ==> !Mistaken(ts[i])
  {
    if ts != [] {
      RecordLengths(ts[1..]);
      assert forall i :: 0 < i < |ts| ==> ts[i] == ts[1..][i - 1];
      if !Mistaken(ts[0]) {
        assert [] + PartitionRecords(ts[0].name, ts[0].details) == PartitionRecords(ts[0].name, ts[0].details);
      }
    }
  }

  /** The records are exactly the printed partitions, in order, if and only if every partition
      is placed and no header holds the text that marks a partition line. */
  lemma RecordsRoundTrip(ts: seq<Description>)
    requires AllPrintable(ts) && AllPlain(ts)
    ensures Records(Print(ts)) == Some(MeantRecords(ts))
            <==> AllPlaced(ts) && forall i :: 0 <= i < |ts| ==> !Mistaken(ts[i])
    ensures Records(Print(ts)) == None <==> !AllPlaced(ts)
  {
    PrintedRecords(ts);
    RecordLengths(ts);
  }

  lemma ConfigsText(t: Description, key: string, value: string)
    requires t.configs == [(key, value)]
    ensures CountFields(t)[2].Text() == "Configs: " + key + "=" + value
    ensures CountFields(t)[2].Stripped() == CountFields(t)[2].Text()
  {
    assert Join(PrintPairs(t.configs), ",") == key + "=" + value;
    assert "Configs:" + " " == "Configs: ";
    assert "Configs: " + (key + "=" + value) == "Configs: " + key + "=" + value;
  }

  lemma ValueShows(t: Description, key: string, value: string)
    requires t.configs == [(key, value)] && Contains(value, "Partition:")
    ensures Mistaken(t)
  {
    var fs, n := HeaderFields(t), |t.extra| + 3;
    ConfigsText(t, key, value);
    assert fs[n] == CountFields(t)[2] && n == |fs| - 1;
    ContainsAround("Configs: " + key + "=", value, "", "Partition:");
    assert "Configs: " + key + "=" + value + "" == fs[n].Text();
    PartInLine(Parts(fs), n, "Partition:");
  }

  lemma OneTopicRecords(t: Description, p: Partition)
    requires t.details == [p]
    ensures ReadRecords([t]) == HeaderRecords(t) + [RecordOf(t.name, p)]
  {
    assert ReadRecords([]) == [] && [t][1..] == [];
    assert PartitionRecords(t.name, [p]) == [RecordOf(t.name, p)];
    assert HeaderRecords(t) + [RecordOf(t.name, p)] + [] == HeaderRecords(t) + [RecordOf(t.name, p)];
  }

  lemma OneListed(t: Description, p: Partition)
    requires Printable(t) && PlainColumns(t) && t.details == [p] && IsPlaced(p)
    ensures AllPrintable([t]) && AllPlain([t]) && AllPlaced([t])
  {
    assert Placed([p]);
  }

  /** A topic with one healthy partition and a configuration value that holds the text is
      counted as two partitions, one of them without a leader. */
  lemma HeaderCounted(t: Description, p: Partition, key: string, value: string)
    requires Printable(t) && PlainColumns(t) && t.details == [p] && IsPlaced(p)
    requires t.configs == [(key, value)] && Contains(value, "Partition:")
    ensures Records(Print([t])) == Some([Record(t.name, Entry(0, -1, [], []))] + [RecordOf(t.name, p)])
  {
    ValueShows(t, key, value);
    OneListed(t, p);
    PrintedRecords([t]);
    OneTopicRecords(t, p);
  }

  /** There is such a topic for every value that can be printed. */
  lemma SuchTopic(key: string, value: string)
    requires IsConfigText(key) && '=' !in key && IsConfigText(value)
    ensures var t, p := Configured(key, value), Partition(0, Some(1), [1], [1], []);
            Printable(t) && PlainColumns(t) && t.details == [p] && IsPlaced(p) && t.configs == [(key, value)]
  {
    ConfiguredPrints(key, value);
  }

  // ---- The report of a printed list ----

  function LedOf(ps: seq<Partition>, id: int): nat {
    if ps == [] then 0 else (if ps[0].leader == Some(id) && id >= 0 then 1 else 0) + LedOf(ps[1..], id)
  }

  /** How many partitions of all the topics a broker leads. */
  function LedBy(ts: seq<Description>, id: int): nat {
    if ts == [] then 0 else LedOf(ts[0].details, id) + LedBy(ts[1..], id)
  }

  function HeldOf(ps: seq<Partition>, id: int): nat {
    if ps == [] then 0 else multiset(ps[0].replicas)[id] + HeldOf(ps[1..], id)
  }

  /** How many replicas of all the topics are placed on a broker. */
  function HeldBy(ts: seq<Description>, id: int): nat {
    if ts == [] then 0 else HeldOf(ts[0].details, id) + HeldBy(ts[1..], id)
  }

  function EntriesIn(ps: seq<Partition>): (r: seq<Entry>)
    ensures |r| == |ps| && forall i :: 0 <= i < |ps| ==> r[i] == RecordOf("", ps[i]).entry
  {
    if ps == [] then [] else [RecordOf("", ps[0]).entry] + EntriesIn(ps[1..])
  }

  /** The partitions printed under a name, in order. */
  function EntriesNamed(ts: seq<Description>, name: string): seq<Entry> {
    if ts == [] then []
    else (if ts[0].name == name then EntriesIn(ts[0].details) else []) + EntriesNamed(ts[1..], name)
  }

  lemma ConcatSnoc<T>(a: seq<T>, b: seq<T>)
    requires b != []
    ensures (a + b)[..|a + b| - 1] == a + b[..|b| - 1] && (a + b)[|a + b| - 1] == b[|b| - 1]
  {
  }

  lemma {:induction false} LeadersConcat(a: seq<Record>, b: seq<Record>)
    ensures Leaders(a + b) == Leaders(a) + Leaders(b)
    decreases b
  {
    if b == [] {
      assert a + b == a;
    } else {
      ConcatSnoc(a, b);
      LeadersConcat(a, b[..|b| - 1]);
    }
  }

  lemma {:induction false} PlacementsConcat(a: seq<Record>, b: seq<Record>)
    ensures Placements(a + b) == Placements(a) + Placements(b)
    decreases b
  {
    if b == [] {
      assert a + b == a;
    } else {
      ConcatSnoc(a, b);
      PlacementsConcat(a, b[..|b| - 1]);
      ConcatInOrder(Placements(a), Placements(b[..|b| - 1]), b[|b| - 1].entry.replicas);
    }
  }

  lemma {:induction false} EntriesConcat(a: seq<Record>, b: seq<Record>, name: string)
    ensures EntriesOf(a + b, name) == EntriesOf(a, name) + EntriesOf(b, name)
    decreases b
  {
    if b == [] {
      assert a + b == a;
    } else {
      ConcatSnoc(a, b);
      EntriesConcat(a, b[..|b| - 1], name);
    }
  }

  lemma {:induction false} OccurrencesCount(s: seq<int>, x: int)
    ensures Occurrences(s, x) == multiset(s)[x]
  {
    if s != [] {
      OccurrencesCount(s[..|s| - 1], x);
      assert s == s[..|s| - 1] + [s[|s| - 1]];
    }
  }

  lemma CountConcat(a: seq<int>, b: seq<int>, x: int)
    ensures Occurrences(a + b, x) == Occurrences(a, x) + Occurrences(b, x)
  {
    OccurrencesCount(a, x);
    OccurrencesCount(b, x);
    OccurrencesCount(a + b, x);
  }

  lemma OneRecord(r: Record)
    ensures Leaders([r]) == (if r.entry.leader >= 0 then [r.entry.leader] else [])
    ensures Placements([r]) == r.entry.replicas && Names([r]) == [r.topic]
    ensures forall name :: EntriesOf([r], name) == if r.topic == name then [r.entry] else []
  {
    assert [r][..0] == [];
  }

  lemma {:induction false} LeadersCounted(name: string, ps: seq<Partition>, id: int)
    requires Placed(ps)
    ensures Occurrences(Leaders(PartitionRecords(name, ps)), id) == LedOf(ps, id)
  {
    if ps != [] {
      var r, rest := RecordOf(name, ps[0]), PartitionRecords(name, ps[1..]);
      PlacedCons(ps);
      LeadersCounted(name, ps[1..], id);
      LeadersConcat([r], rest);
      OneRecord(r);
      CountConcat(Leaders([r]), Leaders(rest), id);
      OccurrencesCount(Leaders([r]), id);
    }
  }

  lemma {:induction false} ReplicasCounted(name: string, ps: seq<Partition>, id: int)
    ensures Occurrences(Placements(PartitionRecords(name, ps)), id) == HeldOf(ps, id)
  {
    if ps != [] {
      var r, rest := RecordOf(name, ps[0]), PartitionRecords(name, ps[1..]);
      ReplicasCounted(name, ps[1..], id);
      PlacementsConcat([r], rest);
      OneRecord(r);
      CountConcat(ps[0].replicas, Placements(rest), id);
      OccurrencesCount(ps[0].replicas, id);
    }
  }

  lemma {:induction false} ListingCounts(ts: seq<Description>, id: int)
    requires AllPlaced(ts)
    ensures Occurrences(Leaders(MeantRecords(ts)), id) == LedBy(ts, id)
    ensures Occurrences(Placements(MeantRecords(ts)), id) == HeldBy(ts, id)
  {
    if ts != [] {
      var first, rest := PartitionRecords(ts[0].name, ts[0].details), MeantRecords(ts[1..]);
      PlacedFirst(ts);
      ListingCounts(ts[1..], id);
      LeadersCounted(ts[0].name, ts[0].details, id);
      ReplicasCounted(ts[0].name, ts[0].details, id);
      LeadersConcat(first, rest);
      PlacementsConcat(first, rest);
      CountConcat(Leaders(first), Leaders(rest), id);
      CountConcat(Placements(first), Placements(rest), id);
    }
  }

  lemma {:induction false} PartitionEntries(topic: string, ps: seq<Partition>, name: string)
    ensures EntriesOf(PartitionRecords(topic, ps), name) == if topic == name then EntriesIn(ps) else []
  {
    if ps != [] {
      var r, rest := RecordOf(topic, ps[0]), PartitionRecords(topic, ps[1..]);
      PartitionEntries(topic, ps[1..], name);
      EntriesConcat([r], rest, name);
      OneRecord(r);
    }
  }

  lemma {:induction false} ListingEntries(ts: seq<Description>, name: string)
    ensures EntriesOf(MeantRecords(ts), name) == EntriesNamed(ts, name)
  {
    if ts != [] {
      var first, rest := PartitionRecords(ts[0].name, ts[0].details), MeantRecords(ts[1..]);
      ListingEntries(ts[1..], name);
      PartitionEntries(ts[0].name, ts[0].details, name);
      EntriesConcat(first, rest, name);
    }
  }

  lemma {:induction false} EntriesShowNames(recs: seq<Record>, name: string)
    ensures name in Names(recs) <==> EntriesOf(recs, name) != []
  {
    if recs != [] {
      EntriesShowNames(recs[..|recs| - 1], name);
    }
  }

  /** A report that says of the printed topics what was printed: every broker that leads or
      holds something, with how much, and every topic that has partitions, with them. */
  ghost predicate ReportsPrinted(r: Report, ts: seq<Description>) {
    && (forall b :: b in Ids(r.brokers) <==> LedBy(ts, b) > 0 || HeldBy(ts, b) > 0)
    && (forall i :: 0 <= i < |r.brokers| ==>
          && r.brokers[i].leaderCount == LedBy(ts, r.brokers[i].id)
          && r.brokers[i].replicaCount == HeldBy(ts, r.brokers[i].id))
    && (forall name :: name in TopicNames(r.topics) <==> EntriesNamed(ts, name) != [])
    && (forall i :: 0 <= i < |r.topics| ==> r.topics[i].partitions == EntriesNamed(ts, r.topics[i].name))
  }

  lemma ReportOfPrinted(r: Report, ts: seq<Description>)
    requires Reports(r, MeantRecords(ts)) && AllPlaced(ts)
    ensures ReportsPrinted(r, ts)
  {
    var recs := MeantRecords(ts);
    forall b
      ensures Occurrences(Leaders(recs), b) == LedBy(ts, b) && (b in Leaders(recs) <==> LedBy(ts, b) > 0)
      ensures Occurrences(Placements(recs), b) == HeldBy(ts, b) && (b in Placements(recs) <==> HeldBy(ts, b) > 0)
    {
      ListingCounts(ts, b);
      NoOccurrence(Leaders(recs), b);
      NoOccurrence(Placements(recs), b);
    }
    forall name
      ensures EntriesOf(recs, name) == EntriesNamed(ts, name)
      ensures name in Names(recs) <==> EntriesNamed(ts, name) != []
    {
      ListingEntries(ts, name);
      EntriesShowNames(recs, name);
    }
  }

  /** The distribution of a printed list: given exactly if every partition is placed, and then
      with the counts and partitions of the descriptions. */
  method DistributionOf(ts: seq<Description>) returns (r: Option<Report>)
    requires AllPrintable(ts) && AllPlain(ts) && forall i :: 0 <= i < |ts| ==> !Mistaken(ts[i])
    ensures r.Some? <==> AllPlaced(ts)
    ensures r.Some? ==> ReportsPrinted(r.value, ts)
    ensures r.Some? ==> Ascending(Ids(r.value.brokers), IntLess) && Ascending(TopicNames(r.value.topics), StringLess)
  {
    RecordsRoundTrip(ts);
    r := GetPartitionDistribution(Print(ts));
    if r.Some? {
      ReportOfPrinted(r.value, ts);
    }
  }
}
