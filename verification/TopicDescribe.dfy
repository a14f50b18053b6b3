/** Reading `kafka-topics.sh --describe`: one header line per topic and one line per
    partition, as tab-separated labelled fields. */
module TopicDescribe {
  import opened Wrappers
  import opened Text
  import opened Decimal

  // ---- The parsers ----

  /** The dictionary built from a partition line; absent entries were not on the line. */
  datatype Detail = Detail(partition: Option<int>, leader: Option<int>, replicas: Option<seq<int>>, isr: Option<seq<int>>)

  const EMPTY := Detail(None, None, None, None)

  datatype Topic = Topic(name: string, partitions: int, replicationFactor: int,
                         configs: Option<map<string, string>>, details: seq<Detail>)

  /** What the single-topic parser has collected so far. */
  datatype Seen = Seen(partitions: int, replicationFactor: int, configs: map<string, string>, details: seq<Detail>)

  /** Processes items in order; None, once reached, is the ValueError that ends it all. */
  function Fold<S, T>(step: (S, T) -> Option<S>, s: S, items: seq<T>): Option<S> {
    if items == [] then Some(s)
    else
      match step(s, items[0])
      case None => None
      case Some(t) => Fold(step, t, items[1..])
  }

  // What follows the first colon; parts are only asked for it when they have one.
  function AfterColon(part: string): string {
    var i := Find(part, ':');
    if i < |part| then part[i + 1..] else ""
  }

  // part.split(":")[1].strip()
  function Value(part: string): string {
    Strip(AfterColon(part)[..Find(AfterColon(part), ':')])
  }

  // part.split(":", 1)[1].strip()
  function Rest(part: string): string {
    Strip(AfterColon(part))
  }

  function AddConfig(configs: map<string, string>, pair: string): map<string, string> {
    var i := Find(pair, '=');
    if i == |pair| then configs else configs[Strip(pair[..i]) := Strip(pair[i + 1..])]
  }

  /** A piece of the configuration text counts if it has an equals sign; the first one divides
      it, and white space around key and value does not matter. */
  lemma PairMeans(configs: map<string, string>, k: string, v: string)
    ensures '=' !in k ==> AddConfig(configs, k + "=" + v) == configs[Strip(k) := Strip(v)]
    ensures '=' !in k ==> AddConfig(configs, k) == configs
  {
    if '=' !in k {
      var pair := k + ['='] + v;
      FindAt(k, '=', v);
      FindNone(k, '=');
      assert pair == k + "=" + v && pair[..|k|] == k && pair[|k| + 1..] == v;
    }
  }

  function AddConfigs(configs: map<string, string>, pairs: seq<string>): map<string, string>
    decreases pairs
  {
    if pairs == [] then configs else AddConfigs(AddConfig(configs, pairs[0]), pairs[1..])
  }

  /** What a part of a line is, by the label it starts with. */
  datatype Label = PartitionCount | ReplicationFactor | Configs | Id | Leader | Replicas | Isr | Other

  function HeaderLabel(p: string): Label {
    if "PartitionCount:" <= p then PartitionCount
    else if "ReplicationFactor:" <= p then ReplicationFactor
    else if "Configs:" <= p then Configs
    else Other
  }

  function DetailLabel(p: string): Label {
    if "Partition:" <= p then Id
    else if "Leader:" <= p then Leader
    else if "Replicas:" <= p then Replicas
    else if "Isr:" <= p then Isr
    else Other
  }

  function HeaderPart(d: Seen, part: string): Option<Seen> {
    var p := Strip(part);
    match HeaderLabel(p)
    case PartitionCount =>
      (match ParseInt(Value(p)) case None => None case Some(n) => Some(d.(partitions := n)))
    case ReplicationFactor =>
      (match ParseInt(Value(p)) case None => None case Some(n) => Some(d.(replicationFactor := n)))
    case Configs =>
      Some(if Rest(p) == "" then d else d.(configs := AddConfigs(d.configs, Split(Rest(p), ','))))
    case _ => Some(d)
  }

  function DetailPart(d: Detail, part: string): Option<Detail> {
    var p := Strip(part);
    match DetailLabel(p)
    case Id => (match ParseInt(Value(p)) case None => None case Some(n) => Some(d.(partition := Some(n))))
    case Leader => (match ParseInt(Value(p)) case None => None case Some(n) => Some(d.(leader := Some(n))))
    case Replicas => (match ParseInts(Value(p)) case None => None case Some(ns) => Some(d.(replicas := Some(ns))))
    case Isr => (match ParseInts(Value(p)) case None => None case Some(ns) => Some(d.(isr := Some(ns))))
    case _ => Some(d)
  }

  predicate IsHeader(line: string) {
    "Topic:" <= line && Contains(line, "PartitionCount:")
  }

  predicate IsDetail(line: string) {
    "Topic:" <= line && Contains(line, "Partition:")
  }

  function LineStep(d: Seen, raw: string): Option<Seen> {
    var line := Strip(raw);
    if IsHeader(line) then Fold(HeaderPart, d, Split(line, '\t'))
    else if IsDetail(line) then
      match Fold(DetailPart, EMPTY, Split(line, '\t'))
      case None => None
      case Some(x) => Some(if x == EMPTY then d else d.(details := d.details + [x]))
    else Some(d)
  }

  function Finish(name: string, d: Seen): Topic {
    Topic(name, d.partitions, d.replicationFactor, if d.configs == map[] then None else Some(d.configs), d.details)
  }

  function ParseTopicLines(name: string, lines: seq<string>): Option<Topic> {
    match Fold(LineStep, Seen(0, 0, map[], []), lines)
    case None => None
    case Some(d) => Some(Finish(name, d))
  }

  function ParseTopic(name: string, raw: string): Option<Topic> {
    ParseTopicLines(name, Lines(Strip(raw)))
  }

  /** A header line and the partition lines up to the next header, each stripped. */
  datatype Block = Block(name: string, lines: seq<string>)

  function TopicName(header: string): string {
    Rest(header[..Find(header, '\t')])
  }

  function FoldLeft<S, T>(step: (S, T) -> S, s: S, items: seq<T>): S
    decreases items
  {
    if items == [] then s else FoldLeft(step, step(s, items[0]), items[1..])
  }

  function Blocks(done: seq<Block>, lines: seq<string>): seq<Block> {
    FoldLeft(AddRaw, done, lines)
  }

  function AddRaw(blocks: seq<Block>, raw: string): seq<Block> {
    AddLine(blocks, Strip(raw))
  }

  // Lines before the first header belong to no topic and are dropped.
  function AddLine(blocks: seq<Block>, line: string): seq<Block> {
    if IsHeader(line) then blocks + [Block(TopicName(line), [line])]
    else if IsDetail(line) && blocks != [] then
      var last := blocks[|blocks| - 1];
      blocks[|blocks| - 1 := last.(lines := last.lines + [line])]
    else blocks
  }

  function ParseBlock(b: Block): Option<Topic> {
    ParseTopic(b.name, Join(b.lines, "\n"))
  }

  function Results(blocks: seq<Block>): (r: seq<Option<Topic>>)
    ensures |r| == |blocks| && forall i :: 0 <= i < |blocks| ==> r[i] == ParseBlock(blocks[i])
  {
    if blocks == [] then [] else [ParseBlock(blocks[0])] + Results(blocks[1..])
  }

  /** All the values, or None if any is missing. */
  function Collect<T>(rs: seq<Option<T>>): Option<seq<T>> {
    if rs == [] then Some([])
    else
      match (rs[0], Collect(rs[1..]))
      case (Some(t), Some(ts)) => Some([t] + ts)
      case _ => None
  }

  function ParseBlocks(blocks: seq<Block>): Option<seq<Topic>> {
    Collect(Results(blocks))
  }

  function ParseAll(raw: string): Option<seq<Topic>> {
    ParseBlocks(Blocks([], Lines(raw)))
  }

  // ---- The loops ----

  method HeaderLoop(d: Seen, line: string) returns (r: Option<Seen>)
    ensures r == Fold(HeaderPart, d, Split(line, '\t'))
  {
    var parts, seen := Split(line, '\t'), d;
    for i := 0 to |parts|
      invariant Fold(HeaderPart, d, parts) == Fold(HeaderPart, seen, parts[i..])
    {
      assert parts[i..][1..] == parts[i + 1..];
      var next := HeaderPart(seen, parts[i]);
      if next.None? {
        return None;
      }
      seen := next.value;
    }
    return Some(seen);
  }

  method DetailLoop(line: string) returns (r: Option<Detail>)
    ensures r == Fold(DetailPart, EMPTY, Split(line, '\t'))
  {
    var parts, detail := Split(line, '\t'), EMPTY;
    for i := 0 to |parts|
      invariant Fold(DetailPart, EMPTY, parts) == Fold(DetailPart, detail, parts[i..])
    {
      assert parts[i..][1..] == parts[i + 1..];
      var next := DetailPart(detail, parts[i]);
      if next.None? {
        return None;
      }
      detail := next.value;
    }
    return Some(detail);
  }

  method LineStepLoop(d: Seen, raw: string) returns (r: Option<Seen>)
    ensures r == LineStep(d, raw)
  {
    var line := Strip(raw);
    if IsHeader(line) {
      r := HeaderLoop(d, line);
    } else if IsDetail(line) {
      var detail := DetailLoop(line);
      if detail.None? {
        return None;
      }
      r := Some(if detail.value == EMPTY then d else d.(details := d.details + [detail.value]));
    } else {
      r := Some(d);
    }
  }

  /** _parse_topic_describe */
  method ParseTopicDescribe(name: string, raw: string) returns (r: Option<Topic>)
    ensures r == ParseTopic(name, raw)
  {
    var lines := Lines(Strip(raw));
    var start := Seen(0, 0, map[], []);
    var seen := start;
    for i := 0 to |lines|
      invariant Fold(LineStep, start, lines) == Fold(LineStep, seen, lines[i..])
    {
      assert lines[i..][1..] == lines[i + 1..];
      var next := LineStepLoop(seen, lines[i]);
      if next.None? {
        return None;
      }
      seen := next.value;
    }
    return Some(Finish(name, seen));
  }

  // The block that is still being collected, if a header has been seen.
  function Open(current: Option<string>, lines: seq<string>): seq<Block> {
    match current case None => [] case Some(name) => [Block(name, lines)]
  }

  /** _parse_all_topics_describe */
  method ParseAllTopicsDescribe(raw: string) returns (r: Option<seq<Topic>>)
    ensures r == ParseAll(raw)
  {
    if Strip(raw) == "" {
      BlankHasNoBlocks(raw);
      return Some([]);
    }
    var lines := Lines(raw);
    var topics, current, currentLines := [], None, [];
    ghost var done := [];
    assert done + Open(current, currentLines) == [] && lines[0..] == lines;
    for i := 0 to |lines|
      invariant ParseBlocks(done) == Some(topics) && (current.None? ==> done == [])
      invariant Blocks([], lines) == Blocks(done + Open(current, currentLines), lines[i..])
    {
      assert lines[i..][1..] == lines[i + 1..];
      var stripped := Strip(lines[i]);
      if stripped == "" {
        continue;
      }
      if IsHeader(stripped) {
        if current.Some? {
          var topic := ParseTopicDescribe(current.value, Join(currentLines, "\n"));
          ParseBlocksSnoc(done, Block(current.value, currentLines));
          if topic.None? {
            BlocksKeep(done + Open(current, currentLines), Block(TopicName(stripped), [stripped]), lines[i + 1..]);
            return None;
          }
          topics := topics + [topic.value];
          done := done + [Block(current.value, currentLines)];
        }
        current, currentLines := Some(TopicName(stripped)), [stripped];
      } else if IsDetail(stripped) {
        currentLines := currentLines + [stripped];
        AddToOpen(done, current, currentLines[..|currentLines| - 1], stripped);
      }
    }
    assert lines[|lines|..] == [];
    if current.Some? {
      var topic := ParseTopicDescribe(current.value, Join(currentLines, "\n"));
      ParseBlocksSnoc(done, Block(current.value, currentLines));
      if topic.None? {
        return None;
      }
      topics := topics + [topic.value];
    } else {
      assert done + [] == done;
    }
    return Some(topics);
  }

  lemma AddToOpen(done: seq<Block>, current: Option<string>, lines: seq<string>, line: string)
    requires !IsHeader(line) && IsDetail(line) && (current.None? ==> done == [])
    ensures AddLine(done + Open(current, lines), line) == done + Open(current, lines + [line])
  {
  }

  lemma {:induction false} CollectSnoc<T>(rs: seq<Option<T>>, r: Option<T>)
    ensures Collect(rs + [r]) == if Collect(rs).Some? && r.Some? then Some(Collect(rs).value + [r.value]) else None
  {
    var all := rs + [r];
    if rs == [] {
      assert all == [r] && all[1..] == [];
      if r.Some? {
        assert [r.value] + [] == [] + [r.value];
      }
    } else {
      assert all[1..] == rs[1..] + [r];
      CollectSnoc(rs[1..], r);
      if rs[0].Some? && Collect(rs[1..]).Some? && r.Some? {
        assert [rs[0].value] + (Collect(rs[1..]).value + [r.value]) == Collect(rs).value + [r.value];
      }
    }
  }

  lemma ParseBlocksSnoc(blocks: seq<Block>, b: Block)
    ensures ParseBlocks(blocks + [b])
            == if ParseBlocks(blocks).Some? && ParseBlock(b).Some?
               then Some(ParseBlocks(blocks).value + [ParseBlock(b).value]) else None
  {
    assert Results(blocks + [b]) == Results(blocks) + [ParseBlock(b)];
    CollectSnoc(Results(blocks), ParseBlock(b));
  }

  // Closed blocks are never touched again: one that cannot be parsed fails the whole parse.
  lemma {:induction false} BlocksKeep(closed: seq<Block>, open: Block, lines: seq<string>)
    requires ParseBlocks(closed).None?
    ensures ParseBlocks(Blocks(closed + [open], lines)).None?
    decreases lines
  {
    if lines == [] {
      ParseBlocksSnoc(closed, open);
    } else {
      var line := Strip(lines[0]);
      if IsHeader(line) {
        ParseBlocksSnoc(closed, open);
        BlocksKeep(closed + [open], Block(TopicName(line), [line]), lines[1..]);
      } else if IsDetail(line) {
        AddToOpen(closed, Some(open.name), open.lines, line);
        BlocksKeep(closed, Block(open.name, open.lines + [line]), lines[1..]);
      } else {
        BlocksKeep(closed, open, lines[1..]);
      }
    }
  }

  lemma BlankHasNoBlocks(raw: string)
    requires Strip(raw) == ""
    ensures ParseAll(raw) == Some([])
  {
    var a, b := StripParts(raw);
    assert raw == a + b;
    BlankLines(raw);
    BlankBlocks(Lines(raw));
  }

  lemma {:induction false} BlankLines(s: string)
    requires AllSpace(s)
    ensures forall l :: l in Lines(s) ==> AllSpace(l)
  {
    if s != "" {
      var i := Find(s, '\n');
      if i < |s| {
        BlankLines(s[i + 1..]);
      }
    }
  }

  lemma {:induction false} BlankBlocks(lines: seq<string>)
    requires forall l :: l in lines ==> AllSpace(l)
    ensures Blocks([], lines) == []
  {
    if lines != [] {
      assert lines[0] in lines && lines[0] + "" + "" == lines[0];
      StripUnique(lines[0], "", "");
      assert forall l :: l in lines[1..] ==> l in lines;
      BlankBlocks(lines[1..]);
    }
  }
}
