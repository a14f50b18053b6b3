/** Leader and replica counts per broker, and partitions per topic, from the describe output. */
module PartitionDistribution {
  import opened Wrappers
  import opened Text
  import opened Decimal
  import opened Sorting
  import opened TopicDescribe

  datatype Entry = Entry(partition: int, leader: int, replicas: seq<int>, isr: seq<int>)

  /** A partition line; what the line does not say keeps its default. */
  datatype Record = Record(topic: string, entry: Entry)

  const DEFAULT := Record("", Entry(0, -1, [], []))

  function RecordPart(r: Record, part: string): Option<Record> {
    var p := Strip(part);
    if "Topic:" <= p then Some(r.(topic := Rest(p)))
    else
      match DetailLabel(p)
      case Id => (match ParseInt(Value(p)) case None => None case Some(n) => Some(r.(entry := r.entry.(partition := n))))
      case Leader => (match ParseInt(Value(p)) case None => None case Some(n) => Some(r.(entry := r.entry.(leader := n))))
      case Replicas =>
        (match ParseInts(Value(p)) case None => None case Some(ns) => Some(r.(entry := r.entry.(replicas := ns))))
      case Isr => (match ParseInts(Value(p)) case None => None case Some(ns) => Some(r.(entry := r.entry.(isr := ns))))
      case _ => Some(r)
  }

  /** The records of the partition lines, in order; lines without a topic name are skipped. */
  function RecordLine(recs: seq<Record>, raw: string): Option<seq<Record>> {
    var line := Strip(raw);
    if !IsDetail(line) then Some(recs)
    else
      match Fold(RecordPart, DEFAULT, Split(line, '\t'))
      case None => None
      case Some(r) => Some(if r.topic == "" then recs else recs + [r])
  }

  function Records(raw: string): Option<seq<Record>> {
    Fold(RecordLine, [], Lines(Strip(raw)))
  }

  // ---- What is counted ----

  /** The leaders of the partitions that have one. */
  function Leaders(recs: seq<Record>): seq<int> {
    if recs == [] then []
    else
      var e := recs[|recs| - 1].entry;
      Leaders(recs[..|recs| - 1]) + (if e.leader >= 0 then [e.leader] else [])
  }

  /** All replica placements. */
  function Placements(recs: seq<Record>): seq<int> {
    if recs == [] then [] else Placements(recs[..|recs| - 1]) + recs[|recs| - 1].entry.replicas
  }

  function Names(recs: seq<Record>): seq<string> {
    if recs == [] then [] else Names(recs[..|recs| - 1]) + [recs[|recs| - 1].topic]
  }

  /** The partitions of a topic, in order. */
  function EntriesOf(recs: seq<Record>, topic: string): seq<Entry> {
    if recs == [] then []
    else
      var r := recs[|recs| - 1];
      EntriesOf(recs[..|recs| - 1], topic) + (if r.topic == topic then [r.entry] else [])
  }

  function Occurrences<T(==)>(s: seq<T>, x: T): nat {
    if s == [] then 0
    else Occurrences(s[..|s| - 1], x) + (if s[|s| - 1] == x then 1 else 0)
  }

  // ---- Orders ----

  predicate IntLess(x: int, y: int) {
    x < y
  }

  // Order of strings by code points.
  predicate StringLess(a: string, b: string) {
    b != "" && (a == "" || a[0] < b[0] || (a[0] == b[0] && StringLess(a[1..], b[1..])))
  }

  lemma {:induction false} StringLessTrans(a: string, b: string, c: string)
    requires StringLess(a, b) && StringLess(b, c)
    ensures StringLess(a, c)
  {
    if a != "" && a[0] == b[0] && b[0] == c[0] {
      StringLessTrans(a[1..], b[1..], c[1..]);
    }
  }

  lemma {:induction false} StringLessTotal(a: string, b: string)
    ensures !StringLess(a, a)
    ensures a != b ==> StringLess(a, b) || StringLess(b, a)
  {
    if a != "" {
      if b != "" && a[0] == b[0] {
        StringLessTotal(a[1..], b[1..]);
        assert a == [a[0]] + a[1..] && b == [b[0]] + b[1..];
      } else {
        StringLessTotal(a[1..], "");
      }
    }
  }

  lemma StringOrder()
    ensures IsStrictOrder(StringLess)
  {
    forall a, b ensures !StringLess(a, a) && (a != b ==> StringLess(a, b) || StringLess(b, a)) {
      StringLessTotal(a, b);
    }
    forall a, b, c | StringLess(a, b) && StringLess(b, c) ensures StringLess(a, c) {
      StringLessTrans(a, b, c);
    }
  }

  // ---- The report ----

  datatype BrokerLoad = BrokerLoad(id: int, leaderCount: nat, replicaCount: nat)
  datatype TopicEntry = TopicEntry(name: string, partitions: seq<Entry>)
  datatype Report = Report(brokers: seq<BrokerLoad>, topics: seq<TopicEntry>)

  function Ids(brokers: seq<BrokerLoad>): (r: seq<int>)
    ensures |r| == |brokers| && forall i :: 0 <= i < |r| ==> r[i] == brokers[i].id
  {
    if brokers == [] then [] else Ids(brokers[..|brokers| - 1]) + [brokers[|brokers| - 1].id]
  }

  function TopicNames(topics: seq<TopicEntry>): (r: seq<string>)
    ensures |r| == |topics| && forall i :: 0 <= i < |r| ==> r[i] == topics[i].name
  {
    if topics == [] then [] else TopicNames(topics[..|topics| - 1]) + [topics[|topics| - 1].name]
  }

  /** A report that says of exactly the brokers and topics seen, in order and once each,
      what the records say. */
  ghost predicate Reports(r: Report, recs: seq<Record>) {
    && Ascending(Ids(r.brokers), IntLess)
    && (forall b :: b in Ids(r.brokers) <==> b in Leaders(recs) || b in Placements(recs))
    && (forall i :: 0 <= i < |r.brokers| ==>
          && r.brokers[i].leaderCount == Occurrences(Leaders(recs), r.brokers[i].id)
          && r.brokers[i].replicaCount == Occurrences(Placements(recs), r.brokers[i].id))
    && Ascending(TopicNames(r.topics), StringLess)
    && (forall t :: t in TopicNames(r.topics) <==> t in Names(recs))
    && (forall i :: 0 <= i < |r.topics| ==> r.topics[i].partitions == EntriesOf(recs, r.topics[i].name))
  }

  // A dictionary of counts.
  ghost predicate Counted<T(!new)>(m: map<T, nat>, s: seq<T>) {
    forall x :: (x in m <==> x in s) && (x in m ==> m[x] == Occurrences(s, x))
  }

  function Bump<T>(m: map<T, nat>, x: T): map<T, nat> {
    m[x := (if x in m then m[x] else 0) + 1]
  }

  lemma {:induction false} NoOccurrence<T>(s: seq<T>, x: T)
    ensures Occurrences(s, x) == 0 <==> x !in s
  {
    if s != [] {
      NoOccurrence(s[..|s| - 1], x);
      assert s == s[..|s| - 1] + [s[|s| - 1]];
    }
  }

  lemma BumpCounts<T(!new)>(m: map<T, nat>, s: seq<T>, x: T)
    requires Counted(m, s)
    ensures Counted(Bump(m, x), s + [x])
  {
    assert (s + [x])[..|s|] == s;
    NoOccurrence(s, x);
  }

  ghost predicate Grouped(m: map<string, seq<Entry>>, recs: seq<Record>) {
    forall t :: (t in m <==> t in Names(recs)) && (t in m ==> m[t] == EntriesOf(recs, t))
  }

  function AddEntry(m: map<string, seq<Entry>>, r: Record): map<string, seq<Entry>> {
    m[r.topic := (if r.topic in m then m[r.topic] else []) + [r.entry]]
  }

  lemma {:induction false} NoEntries(recs: seq<Record>, t: string)
    requires t !in Names(recs)
    ensures EntriesOf(recs, t) == []
  {
    if recs != [] {
      NoEntries(recs[..|recs| - 1], t);
    }
  }

  lemma AddEntryGroups(m: map<string, seq<Entry>>, recs: seq<Record>, r: Record)
    requires Grouped(m, recs)
    ensures Grouped(AddEntry(m, r), recs + [r])
  {
    assert (recs + [r])[..|recs|] == recs;
    if r.topic !in m {
      NoEntries(recs, r.topic);
    }
  }

  /** What the dictionaries hold for the records so far. */
  ghost predicate Tallied(leaders: map<int, nat>, replicas: map<int, nat>, topics: map<string, seq<Entry>>, recs: seq<Record>) {
    Counted(leaders, Leaders(recs)) && Counted(replicas, Placements(recs)) && Grouped(topics, recs)
  }

  method RecordLoop(line: string) returns (r: Option<Record>)
    ensures r == Fold(RecordPart, DEFAULT, Split(line, '\t'))
  {
    var parts, record := Split(line, '\t'), DEFAULT;
    for i := 0 to |parts|
      invariant Fold(RecordPart, DEFAULT, parts) == Fold(RecordPart, record, parts[i..])
    {
      assert parts[i..][1..] == parts[i + 1..];
      var next := RecordPart(record, parts[i]);
      if next.None? {
        return None;
      }
      record := next.value;
    }
    return Some(record);
  }

  method CountReplicas(counts: map<int, nat>, ghost placed: seq<int>, replicas: seq<int>) returns (r: map<int, nat>)
    requires Counted(counts, placed)
    ensures Counted(r, placed + replicas)
  {
    r := counts;
    assert placed + replicas[..0] == placed;
    for i := 0 to |replicas|
      invariant Counted(r, placed + replicas[..i])
    {
      BumpCounts(r, placed + replicas[..i], replicas[i]);
      assert placed + replicas[..i] + [replicas[i]] == placed + replicas[..i + 1];
      r := Bump(r, replicas[i]);
    }
    assert placed + replicas[..|replicas|] == placed + replicas;
  }

  /** Adds one record to the dictionaries. */
  method Tally(leaders: map<int, nat>, replicas: map<int, nat>, topics: map<string, seq<Entry>>,
               ghost recs: seq<Record>, r: Record)
    returns (newLeaders: map<int, nat>, newReplicas: map<int, nat>, newTopics: map<string, seq<Entry>>)
    requires Tallied(leaders, replicas, topics, recs)
    ensures Tallied(newLeaders, newReplicas, newTopics, recs + [r])
  {
    assert (recs + [r])[..|recs|] == recs;
    AddEntryGroups(topics, recs, r);
    newTopics := AddEntry(topics, r);
    newLeaders := leaders;
    if r.entry.leader >= 0 {
      BumpCounts(leaders, Leaders(recs), r.entry.leader);
      newLeaders := Bump(leaders, r.entry.leader);
    } else {
      assert Leaders(recs) + [] == Leaders(recs);
    }
    newReplicas := CountReplicas(replicas, Placements(recs), r.entry.replicas);
  }

  /** get_partition_distribution, from the output of the describe command on. */
  method GetPartitionDistribution(raw: string) returns (r: Option<Report>)
    ensures r.Some? <==> Records(raw).Some?
    ensures r.Some? ==> Reports(r.value, Records(raw).value)
  {
    var lines := Lines(Strip(raw));
    var leaders: map<int, nat>, replicas: map<int, nat>, topics: map<string, seq<Entry>> := map[], map[], map[];
    ghost var recs: seq<Record> := [];
    for i := 0 to |lines|
      invariant Fold(RecordLine, [], lines) == Fold(RecordLine, recs, lines[i..])
      invariant Tallied(leaders, replicas, topics, recs)
    {
      assert lines[i..][1..] == lines[i + 1..];
      var line := Strip(lines[i]);
      if !IsDetail(line) {
        continue;
      }
      var record := RecordLoop(line);
      if record.None? {
        return None;
      }
      if record.value.topic != "" {
        leaders, replicas, topics := Tally(leaders, replicas, topics, recs, record.value);
        recs := recs + [record.value];
      }
    }
    assert lines[|lines|..] == [];
    var report := Assemble(leaders, replicas, topics, recs);
    return Some(report);
  }

  // What the dictionaries say of a broker.
  function LoadOf(leaders: map<int, nat>, replicas: map<int, nat>, id: int): BrokerLoad {
    BrokerLoad(id, if id in leaders then leaders[id] else 0, if id in replicas then replicas[id] else 0)
  }

  lemma LoadIsCounted(leaders: map<int, nat>, replicas: map<int, nat>, recs: seq<Record>, id: int)
    requires Counted(leaders, Leaders(recs)) && Counted(replicas, Placements(recs))
    ensures LoadOf(leaders, replicas, id) == BrokerLoad(id, Occurrences(Leaders(recs), id), Occurrences(Placements(recs), id))
  {
    NoOccurrence(Leaders(recs), id);
    NoOccurrence(Placements(recs), id);
  }

  lemma KeysSeen(leaders: map<int, nat>, replicas: map<int, nat>, recs: seq<Record>)
    requires Counted(leaders, Leaders(recs)) && Counted(replicas, Placements(recs))
    ensures forall b :: b in leaders.Keys + replicas.Keys <==> b in Leaders(recs) || b in Placements(recs)
  {
  }

  method LoadsOf(ids: seq<int>, leaders: map<int, nat>, replicas: map<int, nat>, ghost recs: seq<Record>)
    returns (brokers: seq<BrokerLoad>)
    requires Counted(leaders, Leaders(recs)) && Counted(replicas, Placements(recs))
    ensures Ids(brokers) == ids
    ensures forall i :: 0 <= i < |brokers| ==>
              && brokers[i].leaderCount == Occurrences(Leaders(recs), brokers[i].id)
              && brokers[i].replicaCount == Occurrences(Placements(recs), brokers[i].id)
  {
    brokers := [];
    for i := 0 to |ids|
      invariant |brokers| == i
      invariant forall j :: 0 <= j < i ==>
                  brokers[j] == BrokerLoad(ids[j], Occurrences(Leaders(recs), ids[j]), Occurrences(Placements(recs), ids[j]))
    {
      LoadIsCounted(leaders, replicas, recs, ids[i]);
      brokers := brokers + [LoadOf(leaders, replicas, ids[i])];
    }
    assert Ids(brokers) == ids;
  }

  method AssembleBrokers(leaders: map<int, nat>, replicas: map<int, nat>, ghost recs: seq<Record>)
    returns (brokers: seq<BrokerLoad>)
    requires Counted(leaders, Leaders(recs)) && Counted(replicas, Placements(recs))
    ensures Ascending(Ids(brokers), IntLess)
    ensures forall b :: b in Ids(brokers) <==> b in Leaders(recs) || b in Placements(recs)
    ensures forall i :: 0 <= i < |brokers| ==>
              && brokers[i].leaderCount == Occurrences(Leaders(recs), brokers[i].id)
              && brokers[i].replicaCount == Occurrences(Placements(recs), brokers[i].id)
  {
    var ids := Sorted(leaders.Keys + replicas.Keys, IntLess);
    KeysSeen(leaders, replicas, recs);
    brokers := LoadsOf(ids, leaders, replicas, recs);
  }

  method Assemble(leaders: map<int, nat>, replicas: map<int, nat>, topics: map<string, seq<Entry>>, ghost recs: seq<Record>)
    returns (r: Report)
    requires Tallied(leaders, replicas, topics, recs)
    ensures Reports(r, recs)
  {
    var brokers := AssembleBrokers(leaders, replicas, recs);
    var entries := AssembleTopics(topics, recs);
    return Report(brokers, entries);
  }

  method AssembleTopics(topics: map<string, seq<Entry>>, ghost recs: seq<Record>) returns (r: seq<TopicEntry>)
    requires Grouped(topics, recs)
    ensures Ascending(TopicNames(r), StringLess)
    ensures forall t :: t in TopicNames(r) <==> t in Names(recs)
    ensures forall i :: 0 <= i < |r| ==> r[i].partitions == EntriesOf(recs, r[i].name)
  {
    StringOrder();
    var names := Sorted(topics.Keys, StringLess);
    r := [];
    for i := 0 to |names|
      invariant |r| == i
      invariant forall j :: 0 <= j < i ==> r[j].name == names[j] && r[j].partitions == EntriesOf(recs, names[j])
    {
      assert names[i] in names;
      r := r + [TopicEntry(names[i], topics[names[i]])];
    }
    assert TopicNames(r) == names;
  }

  // ---- Conservation ----

  function SumLeaders(brokers: seq<BrokerLoad>): nat {
    if brokers == [] then 0 else SumLeaders(brokers[..|brokers| - 1]) + brokers[|brokers| - 1].leaderCount
  }

  function SumReplicas(brokers: seq<BrokerLoad>): nat {
    if brokers == [] then 0 else SumReplicas(brokers[..|brokers| - 1]) + brokers[|brokers| - 1].replicaCount
  }

  function SumPartitions(topics: seq<TopicEntry>): nat {
    if topics == [] then 0 else SumPartitions(topics[..|topics| - 1]) + |topics[|topics| - 1].partitions|
  }

  /** How many records have a leader, and how many replicas they list between them. */
  function WithLeader(recs: seq<Record>): nat {
    if recs == [] then 0
    else WithLeader(recs[..|recs| - 1]) + (if recs[|recs| - 1].entry.leader >= 0 then 1 else 0)
  }

  function TotalReplicas(recs: seq<Record>): nat {
    if recs == [] then 0 else TotalReplicas(recs[..|recs| - 1]) + |recs[|recs| - 1].entry.replicas|
  }

  // Occurrences in s of each of the keys, added up.
  function SumOccurrences<T(==)>(keys: seq<T>, s: seq<T>): nat {
    if keys == [] then 0 else SumOccurrences(keys[..|keys| - 1], s) + Occurrences(s, keys[|keys| - 1])
  }

  lemma {:induction false} SumOnce<T>(keys: seq<T>, s: seq<T>, x: T)
    requires NoRepeats(keys)
    ensures SumOccurrences(keys, s + [x]) == SumOccurrences(keys, s) + (if x in keys then 1 else 0)
  {
    if keys != [] {
      var before, k := keys[..|keys| - 1], keys[|keys| - 1];
      SumOnce(before, s, x);
      assert (s + [x])[..|s|] == s;
      assert keys == before + [k];
      assert forall i :: 0 <= i < |before| ==> before[i] != k;
    }
  }

  /** Counted over distinct keys that cover a list, occurrences add up to its length. */
  lemma {:induction false} OccurrencesAddUp<T>(keys: seq<T>, s: seq<T>)
    requires NoRepeats(keys) && forall i :: 0 <= i < |s| ==> s[i] in keys
    ensures SumOccurrences(keys, s) == |s|
  {
    if s == [] {
      SumOfNothing(keys);
    } else {
      var before, x := s[..|s| - 1], s[|s| - 1];
      assert s == before + [x];
      OccurrencesAddUp(keys, before);
      SumOnce(keys, before, x);
    }
  }

  lemma {:induction false} SumOfNothing<T>(keys: seq<T>)
    ensures SumOccurrences(keys, []) == 0
  {
    if keys != [] {
      SumOfNothing(keys[..|keys| - 1]);
    }
  }

  lemma {:induction false} SumsAreOccurrences(brokers: seq<BrokerLoad>, leaders: seq<int>, placed: seq<int>)
    requires forall i :: 0 <= i < |brokers| ==>
               && brokers[i].leaderCount == Occurrences(leaders, brokers[i].id)
               && brokers[i].replicaCount == Occurrences(placed, brokers[i].id)
    ensures SumLeaders(brokers) == SumOccurrences(Ids(brokers), leaders)
    ensures SumReplicas(brokers) == SumOccurrences(Ids(brokers), placed)
  {
    if brokers != [] {
      var before := brokers[..|brokers| - 1];
      SumsAreOccurrences(before, leaders, placed);
      assert Ids(brokers)[..|before|] == Ids(before);
    }
  }

  lemma {:induction false} TopicSumsAreOccurrences(topics: seq<TopicEntry>, recs: seq<Record>)
    requires forall i :: 0 <= i < |topics| ==> topics[i].partitions == EntriesOf(recs, topics[i].name)
    ensures SumPartitions(topics) == SumOccurrences(TopicNames(topics), Names(recs))
  {
    if topics != [] {
      var before := topics[..|topics| - 1];
      TopicSumsAreOccurrences(before, recs);
      assert TopicNames(topics)[..|before|] == TopicNames(before);
      EntriesCounted(recs, topics[|topics| - 1].name);
    }
  }

  lemma {:induction false} EntriesCounted(recs: seq<Record>, t: string)
    ensures |EntriesOf(recs, t)| == Occurrences(Names(recs), t)
  {
    if recs != [] {
      EntriesCounted(recs[..|recs| - 1], t);
      var names := Names(recs);
      assert names[..|names| - 1] == Names(recs[..|recs| - 1]);
    }
  }

  lemma {:induction false} ListLengths(recs: seq<Record>)
    ensures |Leaders(recs)| == WithLeader(recs)
    ensures |Placements(recs)| == TotalReplicas(recs)
    ensures |Names(recs)| == |recs|
  {
    if recs != [] {
      ListLengths(recs[..|recs| - 1]);
    }
  }

  /** Nothing is lost or counted twice: leader counts add up to the partitions that have a
      leader, replica counts to the replicas listed, and the partitions listed under the
      topics to the partition lines. */
  lemma CountsAreConserved(r: Report, recs: seq<Record>)
    requires Reports(r, recs)
    ensures SumLeaders(r.brokers) == WithLeader(recs)
    ensures SumReplicas(r.brokers) == TotalReplicas(recs)
    ensures SumPartitions(r.topics) == |recs|
  {
    BrokersConserve(r.brokers, Leaders(recs), Placements(recs));
    TopicsConserve(r.topics, recs);
    ListLengths(recs);
  }

  lemma BrokersConserve(brokers: seq<BrokerLoad>, leaders: seq<int>, placed: seq<int>)
    requires Ascending(Ids(brokers), IntLess)
    requires forall b :: b in Ids(brokers) <==> b in leaders || b in placed
    requires forall i :: 0 <= i < |brokers| ==>
               && brokers[i].leaderCount == Occurrences(leaders, brokers[i].id)
               && brokers[i].replicaCount == Occurrences(placed, brokers[i].id)
    ensures SumLeaders(brokers) == |leaders| && SumReplicas(brokers) == |placed|
  {
    SumsAreOccurrences(brokers, leaders, placed);
    IdsCover(Ids(brokers), leaders);
    IdsCover(Ids(brokers), placed);
  }

  lemma IdsCover(ids: seq<int>, s: seq<int>)
    requires Ascending(ids, IntLess) && forall x :: x in s ==> x in ids
    ensures SumOccurrences(ids, s) == |s|
  {
    assert IsStrictOrder(IntLess);
    AscendingHasNoRepeats(ids, IntLess);
    forall i | 0 <= i < |s| ensures s[i] in ids {
      var x := s[i];
      assert x in s;
    }
    OccurrencesAddUp(ids, s);
  }

  lemma TopicsConserve(topics: seq<TopicEntry>, recs: seq<Record>)
    requires Ascending(TopicNames(topics), StringLess)
    requires forall t :: t in TopicNames(topics) <==> t in Names(recs)
    requires forall i :: 0 <= i < |topics| ==> topics[i].partitions == EntriesOf(recs, topics[i].name)
    ensures SumPartitions(topics) == |Names(recs)|
  {
    StringOrder();
    TopicSumsAreOccurrences(topics, recs);
    NamesCover(TopicNames(topics), Names(recs));
  }

  lemma NamesCover(names: seq<string>, s: seq<string>)
    requires IsStrictOrder(StringLess) && Ascending(names, StringLess) && forall x :: x in s ==> x in names
    ensures SumOccurrences(names, s) == |s|
  {
    AscendingHasNoRepeats(names, StringLess);
    forall i | 0 <= i < |s| ensures s[i] in names {
      var x := s[i];
      assert x in s;
    }
    OccurrencesAddUp(names, s);
  }

  /** The report is determined by the records: order, contents and counts leave no choice. */
  lemma ReportIsUnique(r: Report, q: Report, recs: seq<Record>)
    requires Reports(r, recs) && Reports(q, recs)
    ensures r == q
  {
    StringOrder();
    AscendingIsUnique(Ids(r.brokers), Ids(q.brokers), IntLess);
    AscendingIsUnique(TopicNames(r.topics), TopicNames(q.topics), StringLess);
    assert forall i :: 0 <= i < |r.brokers| ==> r.brokers[i].id == Ids(r.brokers)[i] == q.brokers[i].id;
    assert forall i :: 0 <= i < |r.topics| ==> r.topics[i].name == TopicNames(r.topics)[i] == q.topics[i].name;
    assert r.brokers == q.brokers && r.topics == q.topics;
  }
}
