/** Broker configuration changes with their audit log: updates, rollbacks of audit rows,
    and one change sent to every broker. */
module ConfigAudit {
  import opened Wrappers
  import opened Text
  import opened BrokerConfig

  datatype Kind = Update | Rollback

  /** One row of the audit log; a missing old value means the key was newly added. */
  datatype Row = Row(broker: int, key: string, before: Option<string>, after: string, kind: Kind)

  /** The configuration file of each broker, and the log, oldest row first. */
  datatype Store = Store(files: map<int, string>, audit: seq<Row>)

  function Lookup(p: Properties, key: string): Option<string> {
    if key in p then Some(p[key]) else None
  }

  function Updated(s: Store, b: int, key: string, value: string): Store
    requires b in s.files
  {
    Store(s.files[b := EditFile(s.files[b], key, value)],
          s.audit + [Row(b, key, Lookup(ParseFile(s.files[b]), key), value, Update)])
  }

  /** Requests. `reachable` says whether the broker's host could be read and written. */
  datatype Op =
    | Set(broker: int, key: string, value: string, reachable: bool)
    | Undo(row: nat, reachable: bool)

  /** Requests that are refused or fail leave files and log as they were. */
  predicate Succeeds(s: Store, op: Op) {
    match op
    case Set(b, _, _, reachable) => reachable && b in s.files
    case Undo(i, reachable) => reachable && i < |s.audit| && s.audit[i].before.Some? && s.audit[i].broker in s.files
  }

  function Step(s: Store, op: Op): Store {
    if !Succeeds(s, op) then s
    else
      match op
      case Set(b, key, value, _) => Updated(s, b, key, value)
      case Undo(i, _) =>
        var row := s.audit[i];
        var t := Updated(s, row.broker, row.key, row.before.value);
        t.(audit := t.audit[|s.audit| := t.audit[|s.audit|].(kind := Rollback)])
  }

  function Run(s: Store, ops: seq<Op>): Store {
    if ops == [] then s else Step(Run(s, ops[..|ops| - 1]), ops[|ops| - 1])
  }

  class ConfigManager {
    var files: map<int, string>
    var audit: seq<Row>

    function Contents(): Store
      reads this
    {
      Store(files, audit)
    }

    constructor (files: map<int, string>)
      ensures Contents() == Store(files, [])
    {
      this.files, audit := files, [];
    }

    /** update_broker_config */
    method UpdateBrokerConfig(b: int, key: string, value: string, reachable: bool) returns (ok: bool)
      modifies this
      ensures ok <==> Succeeds(old(Contents()), Set(b, key, value, reachable))
      ensures Contents() == Step(old(Contents()), Set(b, key, value, reachable))
      ensures files.Keys == old(files).Keys
      ensures ok <==> reachable && b in old(files)
      ensures !ok ==> files == old(files) && audit == old(audit)
      ensures ok ==> files == old(files)[b := EditFile(old(files)[b], key, value)]
      ensures ok ==>
                var p := ParseFile(old(files)[b]);
                audit == old(audit) + [Row(b, key, if key in p then Some(p[key]) else None, value, Update)]
    {
      if b !in files || !reachable {
        return false;
      }
      var current := ParseProperties(files[b]);
      var before := if key in current then Some(current[key]) else None;
      var content := EditContent(files[b], key, value);
      files := files[b := content];
      audit := audit + [Row(b, key, before, value, Update)];
      return true;
    }

    /** rollback_config: the row that is relabelled is looked up again as the newest row
        with that key, on any broker. */
    method RollbackConfig(i: nat, reachable: bool) returns (ok: bool)
      modifies this
      ensures ok <==> Succeeds(old(Contents()), Undo(i, reachable))
      ensures Contents() == Step(old(Contents()), Undo(i, reachable))
      ensures ok <==> reachable && i < |old(audit)| && old(audit)[i].before.Some? && old(audit)[i].broker in old(files)
      ensures !ok ==> files == old(files) && audit == old(audit)
      ensures ok ==>
                var row := old(audit)[i];
                var p := ParseFile(old(files)[row.broker]);
                && files == old(files)[row.broker := EditFile(old(files)[row.broker], row.key, row.before.value)]
                && audit == old(audit) + [Row(row.broker, row.key, if row.key in p then Some(p[row.key]) else None,
                                              row.before.value, Rollback)]
    {
      if i >= |audit| || audit[i].before.None? {
        return false;
      }
      var row := audit[i];
      ok := UpdateBrokerConfig(row.broker, row.key, row.before.value, reachable);
      if !ok {
        return;
      }
      var latest := NewestWithKey(audit, row.key);
      audit := audit[latest := audit[latest].(kind := Rollback)];
    }

    /** bulk_update_broker_config: one broker's failure does not stop the others. */
    method BulkUpdate(brokers: seq<int>, key: string, value: string, reachable: set<int>)
      returns (results: seq<(int, bool)>, successCount: nat)
      modifies this
      ensures results == Outcomes(brokers, old(files).Keys * reachable)
      ensures successCount == CountOk(results)
      ensures Contents() == BulkRun(old(Contents()), brokers, key, value, reachable)
    {
      results, successCount := [], 0;
      ghost var start := Contents();
      for i := 0 to |brokers|
        invariant files.Keys == start.files.Keys
        invariant results == Outcomes(brokers[..i], start.files.Keys * reachable)
        invariant successCount == CountOk(results)
        invariant Contents() == BulkRun(start, brokers[..i], key, value, reachable)
      {
        var ok := UpdateBrokerConfig(brokers[i], key, value, brokers[i] in reachable);
        results := results + [(brokers[i], ok)];
        if ok {
          successCount := successCount + 1;
        }
        BulkRunSnoc(start, brokers, i, key, value, reachable);
        OutcomesSnoc(brokers, i, start.files.Keys * reachable);
      }
      assert brokers[..|brokers|] == brokers;
    }
  }

  /** Each broker with whether its own change went through. */
  function Outcomes(brokers: seq<int>, able: set<int>): (r: seq<(int, bool)>)
    ensures |r| == |brokers| && forall i :: 0 <= i < |brokers| ==> r[i] == (brokers[i], brokers[i] in able)
  {
    if brokers == [] then []
    else Outcomes(brokers[..|brokers| - 1], able) + [(brokers[|brokers| - 1], brokers[|brokers| - 1] in able)]
  }

  function CountOk(results: seq<(int, bool)>): nat {
    if results == [] then 0
    else CountOk(results[..|results| - 1]) + if results[|results| - 1].1 then 1 else 0
  }

  lemma {:induction false} CountOkIsNumber(results: seq<(int, bool)>)
    ensures CountOk(results) == |set i | 0 <= i < |results| && results[i].1|
  {
    if results != [] {
      var n := |results| - 1;
      var front := set i | 0 <= i < n && results[..n][i].1;
      CountOkIsNumber(results[..n]);
      assert (set i | 0 <= i < |results| && results[i].1) == if results[n].1 then front + {n} else front;
    }
  }

  // The first result of the query for rows with a key, newest first.
  method NewestWithKey(audit: seq<Row>, key: string) returns (i: nat)
    requires exists row :: row in audit && row.key == key
    ensures i < |audit| && audit[i].key == key
    ensures forall j :: i < j < |audit| ==> audit[j].key != key
  {
    i := |audit| - 1;
    while audit[i].key != key
      invariant i < |audit|
      invariant exists j :: 0 <= j <= i && audit[j].key == key
      invariant forall j :: i < j < |audit| ==> audit[j].key != key
      decreases i
    {
      i := i - 1;
    }
  }

  /** The same change requested for each broker in turn. */
  function BulkRun(s: Store, brokers: seq<int>, key: string, value: string, reachable: set<int>): Store {
    if brokers == [] then s
    else
      var b := brokers[|brokers| - 1];
      Step(BulkRun(s, brokers[..|brokers| - 1], key, value, reachable), Set(b, key, value, b in reachable))
  }

  lemma BulkRunSnoc(s: Store, brokers: seq<int>, i: nat, key: string, value: string, reachable: set<int>)
    requires i < |brokers|
    ensures BulkRun(s, brokers[..i + 1], key, value, reachable)
            == Step(BulkRun(s, brokers[..i], key, value, reachable), Set(brokers[i], key, value, brokers[i] in reachable))
  {
    assert brokers[..i + 1][..i] == brokers[..i];
  }

  lemma OutcomesSnoc(brokers: seq<int>, i: nat, able: set<int>)
    requires i < |brokers|
    ensures Outcomes(brokers[..i + 1], able) == Outcomes(brokers[..i], able) + [(brokers[i], brokers[i] in able)]
  {
    assert brokers[..i + 1][..i] == brokers[..i];
  }

  /** A bulk change edits exactly the listed brokers that could be reached, once each even
      when a broker is listed twice. */
  lemma {:induction false} BulkEditsReachable(s: Store, brokers: seq<int>, key: string, value: string, reachable: set<int>)
    requires GoodKey(key) && '\n' !in value
    ensures var t := BulkRun(s, brokers, key, value, reachable);
            && t.files.Keys == s.files.Keys
            && forall b :: b in s.files ==>
                 t.files[b] == if b in brokers && b in reachable then EditFile(s.files[b], key, value) else s.files[b]
  {
    if brokers != [] {
      var rest, last := brokers[..|brokers| - 1], brokers[|brokers| - 1];
      BulkEditsReachable(s, rest, key, value, reachable);
      assert forall b :: b in brokers <==> b in rest || b == last by { assert brokers == rest + [last]; }
      SetEdits(s, BulkRun(s, rest, key, value, reachable), rest, last, key, value, reachable);
    }
  }

  lemma SetEdits(s: Store, t: Store, rest: seq<int>, last: int, key: string, value: string, reachable: set<int>)
    requires GoodKey(key) && '\n' !in value && t.files.Keys == s.files.Keys
    requires forall b :: b in s.files ==>
               t.files[b] == if b in rest && b in reachable then EditFile(s.files[b], key, value) else s.files[b]
    ensures var u := Step(t, Set(last, key, value, last in reachable));
            && u.files.Keys == s.files.Keys
            && forall b :: b in s.files ==>
                 u.files[b] == if (b in rest || b == last) && b in reachable then EditFile(s.files[b], key, value) else s.files[b]
  {
    if last in s.files {
      EditIdempotent(s.files[last], key, value);
    }
  }

  // ---- Runs without outside edits ----

  predicate OneLine(s: string) {
    '\n' !in s
  }

  predicate GoodOp(op: Op) {
    op.Set? ==> GoodKey(op.key) && OneLine(op.value)
  }

  ghost predicate GoodRow(row: Row) {
    GoodKey(row.key) && (row.before.Some? ==> OneLine(row.before.value) && Trimmed(row.before.value))
  }

  /** A log the manager wrote itself. */
  ghost predicate Sound(s: Store) {
    forall i :: 0 <= i < |s.audit| ==> GoodRow(s.audit[i])
  }

  lemma {:induction false} ParsedValuesAreTrimmedLines(lines: seq<string>, key: string)
    requires forall l :: l in lines ==> OneLine(l)
    ensures var v := Lookup(ParseLines(lines), key); v.Some? ==> OneLine(v.value) && Trimmed(v.value)
  {
    ParseIsLastAssignment(lines, key);
    if LastAssigning(lines, key).Some? {
      LastIsALine(lines, key);
      AssignedValueIsTrimmedLine(LastAssigning(lines, key).value);
    }
  }

  lemma AssignedValueIsTrimmedLine(line: string)
    requires OneLine(line) && ParseLine(line).Some?
    ensures OneLine(ParseLine(line).value.1) && Trimmed(ParseLine(line).value.1)
  {
    var s := Strip(line);
    var v := s[Find(s, '=') + 1..];
    StripIsPart(line);
    StripIsPart(v);
    StripTrims(v);
    assert forall c :: c in v ==> c in s;
  }

  /** Every change request, of either kind, is an update of one key on one broker. */
  ghost predicate Changes(s: Store, op: Op, b: int, key: string, value: string) {
    && Succeeds(s, op)
    && match op
       case Set(b', key', value', _) => b == b' && key == key' && value == value'
       case Undo(i, _) => b == s.audit[i].broker && key == s.audit[i].key && value == s.audit[i].before.value
  }

  lemma StepChanges(s: Store, op: Op) returns (b: int, key: string, value: string)
    requires Succeeds(s, op)
    ensures Changes(s, op, b, key, value)
    ensures Sound(s) && GoodOp(op) ==> GoodKey(key) && OneLine(value)
  {
    match op
    case Set(b', key', value', _) => b, key, value := b', key', value';
    case Undo(i, _) => b, key, value := s.audit[i].broker, s.audit[i].key, s.audit[i].before.value;
  }

  lemma StepEffect(s: Store, op: Op, b: int, key: string, value: string)
    requires Changes(s, op, b, key, value)
    ensures b in s.files
    ensures Step(s, op).files == s.files[b := EditFile(s.files[b], key, value)]
    ensures var kind := if op.Set? then Update else Rollback;
            Step(s, op).audit == s.audit + [Row(b, key, Lookup(ParseFile(s.files[b]), key), value, kind)]
  {
  }

  lemma StepKeepsSound(s: Store, op: Op)
    requires Sound(s) && GoodOp(op)
    ensures Sound(Step(s, op))
  {
    if Succeeds(s, op) {
      var b, key, value := StepChanges(s, op);
      StepEffect(s, op, b, key, value);
      LinesPieces(s.files[b]);
      ParsedValuesAreTrimmedLines(Lines(s.files[b]), key);
    }
  }

  lemma {:induction false} RunKeepsSound(s: Store, ops: seq<Op>)
    requires Sound(s) && forall op :: op in ops ==> GoodOp(op)
    ensures Sound(Run(s, ops))
    ensures Run(s, ops).files.Keys == s.files.Keys
  {
    if ops != [] {
      RunKeepsSound(s, ops[..|ops| - 1]);
      StepKeepsSound(Run(s, ops[..|ops| - 1]), ops[|ops| - 1]);
    }
  }

  // ---- One key of one broker ----

  // The parsed value of a key now, and whether edits of it land in the broker's file.
  function Now(s: Store, b: int, key: string): Option<string>
    requires b in s.files
  {
    Lookup(ParseFile(s.files[b]), key)
  }

  predicate Landing(s: Store, b: int, key: string)
    requires b in s.files
  {
    Lands(Lines(s.files[b]), key)
  }

  /** A request sets the key it is about, where edits of that key land, and nothing else. */
  lemma StepNow(s: Store, op: Op, b: int, key: string)
    requires Sound(s) && GoodOp(op) && b in s.files
    ensures b in Step(s, op).files
    ensures (forall v :: !Changes(s, op, b, key, v)) || !Landing(s, b, key) ==> Now(Step(s, op), b, key) == Now(s, b, key)
    ensures forall v :: Changes(s, op, b, key, v) && Landing(s, b, key) ==> Now(Step(s, op), b, key) == Some(Strip(v))
  {
    if Succeeds(s, op) {
      var b', key', value' := StepChanges(s, op);
      StepEffect(s, op, b', key', value');
      EditFileParse(s.files[b'], key', value');
    }
  }

  /** Whether edits of a key land never changes. */
  lemma StepKeepsLanding(s: Store, op: Op, b: int, key: string)
    requires Sound(s) && GoodOp(op) && b in s.files && GoodKey(key)
    ensures b in Step(s, op).files && (Landing(Step(s, op), b, key) <==> Landing(s, b, key))
  {
    if Succeeds(s, op) {
      var b', key', value' := StepChanges(s, op);
      StepEffect(s, op, b', key', value');
      EditFileKeepsLanding(s.files[b'], key', value', key);
    }
  }

  /** What a broker's parsed file becomes when logged rows are applied to it as plain map updates. */
  function Replay(p: Properties, audit: seq<Row>, b: int): Properties {
    if audit == [] then p
    else
      var before, row := Replay(p, audit[..|audit| - 1], b), audit[|audit| - 1];
      if row.broker == b then before[row.key := Strip(row.after)] else before
  }

  predicate About(row: Row, b: int, key: string) {
    row.broker == b && row.key == key
  }

  /** The old value of a row is what replaying the rows before it says. */
  ghost predicate RowExplained(p: Properties, audit: seq<Row>, i: nat)
    requires i < |audit|
  {
    audit[i].before == Lookup(Replay(p, audit[..i], audit[i].broker), audit[i].key)
  }

  /** The log explains a key of a broker: replaying it from the initial file gives the
      current value, and every old value logged for the key is what the replay says. */
  ghost predicate KeyExplained(p: Properties, s: Store, b: int, key: string) {
    && b in s.files
    && Now(s, b, key) == Lookup(Replay(p, s.audit, b), key)
    && forall i :: 0 <= i < |s.audit| && About(s.audit[i], b, key) ==> RowExplained(p, s.audit, i)
  }

  // The newest row for a broker and key.
  function LatestRow(audit: seq<Row>, b: int, key: string): (r: Option<Row>)
    ensures r.Some? ==> r.value in audit && About(r.value, b, key)
    ensures r.None? ==> forall row :: row in audit ==> !About(row, b, key)
  {
    if audit == [] then None
    else
      var row := audit[|audit| - 1];
      if About(row, b, key) then Some(row) else LatestRow(audit[..|audit| - 1], b, key)
  }

  lemma {:induction false} ReplayIsLatestRow(p: Properties, audit: seq<Row>, b: int, key: string)
    ensures Lookup(Replay(p, audit, b), key)
            == match LatestRow(audit, b, key) case Some(row) => Some(Strip(row.after)) case None => Lookup(p, key)
  {
    if audit != [] {
      ReplayIsLatestRow(p, audit[..|audit| - 1], b, key);
    }
  }

  lemma RowsStayExplained(p: Properties, audit: seq<Row>, row: Row, b: int, key: string)
    requires forall i :: 0 <= i < |audit| && About(audit[i], b, key) ==> RowExplained(p, audit, i)
    requires About(row, b, key) ==> row.before == Lookup(Replay(p, audit, b), key)
    ensures forall i :: 0 <= i < |audit| + 1 && About((audit + [row])[i], b, key) ==> RowExplained(p, audit + [row], i)
  {
    var all := audit + [row];
    assert all[..|audit|] == audit;
    forall i | 0 <= i < |all| && About(all[i], b, key) ensures RowExplained(p, all, i) {
      if i < |audit| {
        assert all[..i] == audit[..i];
        assert RowExplained(p, audit, i);
      }
    }
  }

  lemma StepKeepsKeyExplained(p: Properties, s: Store, op: Op, b: int, key: string)
    requires Sound(s) && GoodOp(op) && KeyExplained(p, s, b, key)
    requires GoodKey(key) ==> Landing(s, b, key)
    ensures KeyExplained(p, Step(s, op), b, key)
  {
    StepNow(s, op, b, key);
    if Succeeds(s, op) {
      var b', key', value' := StepChanges(s, op);
      StepEffect(s, op, b', key', value');
      var t := Step(s, op);
      var row := t.audit[|s.audit|];
      assert t.audit == s.audit + [row] && t.audit[..|s.audit|] == s.audit;
      RowsStayExplained(p, s.audit, row, b, key);
    }
  }

  ghost predicate GoodOps(ops: seq<Op>) {
    forall op :: op in ops ==> GoodOp(op)
  }

  lemma {:induction false} RunExplainsKey(files: map<int, string>, ops: seq<Op>, b: int, key: string)
    requires GoodOps(ops) && b in files && (GoodKey(key) ==> Lands(Lines(files[b]), key))
    ensures var s := Run(Store(files, []), ops);
            KeyExplained(ParseFile(files[b]), s, b, key) && (GoodKey(key) ==> Landing(s, b, key))
  {
    if ops != [] {
      var before, op := ops[..|ops| - 1], ops[|ops| - 1];
      RunExplainsKey(files, before, b, key);
      RunKeepsSound(Store(files, []), before);
      StepKeepsKeyExplained(ParseFile(files[b]), Run(Store(files, []), before), op, b, key);
      if GoodKey(key) {
        StepKeepsLanding(Run(Store(files, []), before), op, b, key);
      }
    }
  }

  /** With no edits from outside, the log explains a key of a broker after every run of
      updates and rollbacks if and only if edits of that key land in the initial file. */
  lemma KeyHistoryIff(files: map<int, string>, b: int, key: string)
    requires b in files && GoodKey(key)
    ensures (forall ops :: GoodOps(ops) ==> KeyExplained(ParseFile(files[b]), Run(Store(files, []), ops), b, key))
            <==> Lands(Lines(files[b]), key)
  {
    if Lands(Lines(files[b]), key) {
      forall ops | GoodOps(ops) ensures KeyExplained(ParseFile(files[b]), Run(Store(files, []), ops), b, key) {
        RunExplainsKey(files, ops, b, key);
      }
    } else {
      var op := UnexplainedOp(files, b, key);
      assert !KeyExplained(ParseFile(files[b]), Run(Store(files, []), [op]), b, key);
    }
  }

  // An update that does not land and does not write the value the file has.
  lemma UnexplainedOp(files: map<int, string>, b: int, key: string) returns (op: Op)
    requires b in files && GoodKey(key) && !Lands(Lines(files[b]), key)
    ensures GoodOps([op]) && !KeyExplained(ParseFile(files[b]), Run(Store(files, []), [op]), b, key)
  {
    var s := Store(files, []);
    var value := if Now(s, b, key) == Some("") then "x" else "";
    op := Set(b, key, value, true);
    StripUnique("", value, "");
    assert "" + value + "" == value;
    assert Changes(s, op, b, key, value);
    StepEffect(s, op, b, key, value);
    StepNow(s, op, b, key);
    assert [op][..0] == [] && Run(s, []) == s && Run(s, [op]) == Step(s, op);
    var t := Step(s, op);
    assert t.audit[..0] == [];
    assert Lookup(Replay(ParseFile(files[b]), t.audit, b), key) == Some(value);
  }

  /** The rows of one broker and key chain, where edits of the key land: each old value is
      the stripped new value of the row before it, and the first one is that of the initial file. */
  lemma RowsChain(files: map<int, string>, ops: seq<Op>, i: nat)
    requires GoodOps(ops) && i < |Run(Store(files, []), ops).audit|
    requires var row := Run(Store(files, []), ops).audit[i]; row.broker in files && Lands(Lines(files[row.broker]), row.key)
    ensures var audit := Run(Store(files, []), ops).audit;
            var row := audit[i];
            row.before == match LatestRow(audit[..i], row.broker, row.key)
                          case Some(previous) => Some(Strip(previous.after))
                          case None => Lookup(ParseFile(files[row.broker]), row.key)
  {
    var audit := Run(Store(files, []), ops).audit;
    var b, key := audit[i].broker, audit[i].key;
    RunExplainsKey(files, ops, b, key);
    assert About(audit[i], b, key) && RowExplained(ParseFile(files[b]), audit, i);
    ReplayIsLatestRow(ParseFile(files[b]), audit[..i], b, key);
  }

  /** For a file whose assignments are all spelled in the ways the editor knows, replaying
      the log gives the whole parsed file. */
  lemma RunIsReplay(files: map<int, string>, ops: seq<Op>, b: int)
    requires GoodOps(ops) && b in files && WellSpelled(Lines(files[b]))
    ensures var s := Run(Store(files, []), ops);
            b in s.files && ParseFile(s.files[b]) == Replay(ParseFile(files[b]), s.audit, b)
  {
    var s := Run(Store(files, []), ops);
    RunKeepsSound(Store(files, []), ops);
    var p, q := ParseFile(s.files[b]), Replay(ParseFile(files[b]), s.audit, b);
    forall key ensures Lookup(p, key) == Lookup(q, key) {
      if GoodKey(key) {
        WellSpelledLands(Lines(files[b]), key);
      }
      RunExplainsKey(files, ops, b, key);
    }
    SameLookups(p, q);
  }

  lemma SameLookups(p: Properties, q: Properties)
    requires forall key :: Lookup(p, key) == Lookup(q, key)
    ensures p == q
  {
    forall key ensures (key in p <==> key in q) && (key in p ==> p[key] == q[key]) {
      assert Lookup(p, key) == Lookup(q, key);
    }
    EqualMaps(p, q);
  }

  // ---- Rollback ----

  lemma TrimmedIsStripped(s: string)
    requires Trimmed(s)
    ensures Strip(s) == s
  {
    StripUnique("", s, "");
    assert "" + s + "" == s;
  }

  /** An update followed by the rollback of its row restores the parsed file exactly when
      the key existed before, whatever the file; otherwise the rollback is refused. */
  lemma UpdateThenRollback(s: Store, b: int, key: string, value: string)
    requires Sound(s) && b in s.files && GoodKey(key) && OneLine(value)
    ensures var t := Step(s, Set(b, key, value, true));
            var undo := Undo(|s.audit|, true);
            && (Succeeds(t, undo) <==> key in ParseFile(s.files[b]))
            && b in Step(t, undo).files
            && (ParseFile(Step(t, undo).files[b]) == ParseFile(s.files[b]) <==> key in ParseFile(s.files[b]))
  {
    var set_ := Set(b, key, value, true);
    var t := Step(s, set_);
    assert Changes(s, set_, b, key, value);
    StepEffect(s, set_, b, key, value);
    EditFileParse(s.files[b], key, value);
    StepKeepsSound(s, set_);
    if key in ParseFile(s.files[b]) {
      StepKeepsLanding(s, set_, b, key);
      RollbackOfNewest(s, t, ParseFile(s.files[b]), b, key, value);
    } else {
      NotStuck(s, b, key);
    }
  }

  lemma NotStuck(s: Store, b: int, key: string)
    requires b in s.files && GoodKey(key) && key !in ParseFile(s.files[b])
    ensures Landing(s, b, key)
  {
    if !Landing(s, b, key) {
      StuckMeansAssigned(Lines(s.files[b]), key);
    }
  }

  lemma RollbackOfNewest(s: Store, t: Store, p: Properties, b: int, key: string, value: string)
    requires Sound(t) && |t.audit| == |s.audit| + 1 && b in s.files && b in t.files && key in p
    requires var row := t.audit[|s.audit|]; About(row, b, key) && row.before == Some(p[key])
    requires ParseFile(t.files[b]) == if Landing(s, b, key) then p[key := Strip(value)] else p
    requires Landing(t, b, key) <==> Landing(s, b, key)
    ensures Succeeds(t, Undo(|s.audit|, true))
    ensures b in Step(t, Undo(|s.audit|, true)).files && ParseFile(Step(t, Undo(|s.audit|, true)).files[b]) == p
  {
    var undo := Undo(|s.audit|, true);
    assert GoodRow(t.audit[|s.audit|]);
    assert Changes(t, undo, b, key, p[key]);
    StepEffect(t, undo, b, key, p[key]);
    WriteBack(t.files[b], p, key, value);
  }

  lemma WriteBack(content: string, p: Properties, key: string, value: string)
    requires GoodKey(key) && key in p && OneLine(p[key]) && Trimmed(p[key])
    requires ParseFile(content) == if Lands(Lines(content), key) then p[key := Strip(value)] else p
    ensures ParseFile(EditFile(content, key, p[key])) == p
  {
    EditFileParse(content, key, p[key]);
    TrimmedIsStripped(p[key]);
    SetBack(p, key, Strip(value));
  }

  lemma SetBack<K, V>(p: map<K, V>, key: K, v: V)
    requires key in p
    ensures p[key := v][key := p[key]] == p
  {
  }

  /** Rolls back the first n rows, newest first. */
  function Unwind(s: Store, n: nat): Store
    decreases n
  {
    if n == 0 then s else Unwind(Step(s, Undo(n - 1, true)), n - 1)
  }

  lemma UnwindStep(s: Store, n: nat)
    requires Sound(s) && 0 < n <= |s.audit|
    ensures var t := Step(s, Undo(n - 1, true));
            Sound(t) && t.files.Keys == s.files.Keys && n - 1 <= |t.audit| && t.audit[..n - 1] == s.audit[..n - 1]
  {
    StepKeepsSound(s, Undo(n - 1, true));
  }

  /** A key whose edits do not land keeps its value however much is rolled back. */
  lemma {:induction false} UnwindStuck(s: Store, n: nat, b: int, key: string)
    requires Sound(s) && b in s.files && n <= |s.audit|
    requires !GoodKey(key) || !Landing(s, b, key)
    ensures b in Unwind(s, n).files && Now(Unwind(s, n), b, key) == Now(s, b, key)
    decreases n
  {
    if n > 0 {
      var undo := Undo(n - 1, true);
      UnwindStep(s, n);
      StepNow(s, undo, b, key);
      if GoodKey(key) {
        StepKeepsLanding(s, undo, b, key);
      } else {
        assert forall v :: Changes(s, undo, b, key, v) ==> GoodRow(s.audit[n - 1]);
      }
      UnwindStuck(Step(s, undo), n - 1, b, key);
    }
  }

  // The current value of a key, seen from a log that explains it.
  predicate Follows(p: Properties, audit: seq<Row>, b: int, key: string, now: Option<string>) {
    && (key in p ==> now == Lookup(Replay(p, audit, b), key))
    && (key in Replay(p, audit, b) ==> now.Some?)
  }

  // What unwinding must make of a key: the initial value if there was one.
  predicate Restored(p: Properties, now: Option<string>, r: Option<string>, key: string) {
    if key in p then r == Lookup(p, key) else r.Some? <==> now.Some?
  }

  ghost predicate RowsExplained(p: Properties, audit: seq<Row>, n: nat, b: int, key: string)
    requires n <= |audit|
  {
    forall i :: 0 <= i < n && About(audit[i], b, key) ==> RowExplained(p, audit, i)
  }

  lemma RowsExplainedPrefix(p: Properties, audit: seq<Row>, more: seq<Row>, n: nat, b: int, key: string)
    requires n <= |audit| && n <= |more| && audit[..n] == more[..n] && RowsExplained(p, audit, n, b, key)
    ensures RowsExplained(p, more, n, b, key)
  {
    forall i | 0 <= i < n && About(more[i], b, key) ensures RowExplained(p, more, i) {
      assert more[i] == more[..n][i] && audit[i] == audit[..n][i];
      assert more[..i] == more[..n][..i] && audit[..i] == audit[..n][..i];
      assert RowExplained(p, audit, i);
    }
  }

  // What has to be known of a store to roll back its first n rows, for one key.
  ghost predicate Rollable(p: Properties, s: Store, n: nat, b: int, key: string) {
    && Sound(s) && b in s.files && Landing(s, b, key)
    && n <= |s.audit| && RowsExplained(p, s.audit, n, b, key)
    && Follows(p, s.audit[..n], b, key, Now(s, b, key))
  }

  lemma UndoNow(p: Properties, s: Store, n: nat, b: int, key: string)
    requires n > 0 && Rollable(p, s, n, b, key)
    ensures b in Step(s, Undo(n - 1, true)).files
    ensures Follows(p, s.audit[..n - 1], b, key, Now(Step(s, Undo(n - 1, true)), b, key))
    ensures Now(Step(s, Undo(n - 1, true)), b, key).Some? <==> Now(s, b, key).Some?
  {
    UndoSets(s, n - 1, b, key);
    RowAbout(p, s.audit, n, b, key);
    UndoFollows(p, s.audit, n, b, key, Now(s, b, key), Now(Step(s, Undo(n - 1, true)), b, key));
  }

  lemma RowAbout(p: Properties, audit: seq<Row>, n: nat, b: int, key: string)
    requires 0 < n <= |audit| && RowsExplained(p, audit, n, b, key)
    ensures About(audit[n - 1], b, key) ==> audit[n - 1].before == Lookup(Replay(p, audit[..n - 1], b), key)
  {
    assert About(audit[n - 1], b, key) ==> RowExplained(p, audit, n - 1);
  }

  lemma UndoRollable(p: Properties, s: Store, n: nat, b: int, key: string)
    requires n > 0 && GoodKey(key) && Rollable(p, s, n, b, key)
    ensures Rollable(p, Step(s, Undo(n - 1, true)), n - 1, b, key)
  {
    var t := Step(s, Undo(n - 1, true));
    UnwindStep(s, n);
    UndoNow(p, s, n, b, key);
    StepKeepsLanding(s, Undo(n - 1, true), b, key);
    RowsExplainedPrefix(p, s.audit, t.audit, n - 1, b, key);
  }

  lemma {:induction false} UnwindLanding(p: Properties, s: Store, n: nat, b: int, key: string)
    requires GoodKey(key) && Rollable(p, s, n, b, key)
    ensures b in Unwind(s, n).files && Restored(p, Now(s, b, key), Now(Unwind(s, n), b, key), key)
    decreases n
  {
    if n == 0 {
      assert s.audit[..0] == [];
    } else {
      UndoRollable(p, s, n, b, key);
      UndoNow(p, s, n, b, key);
      UnwindLanding(p, Step(s, Undo(n - 1, true)), n - 1, b, key);
    }
  }

  lemma UndoSets(s: Store, i: nat, b: int, key: string)
    requires Sound(s) && i < |s.audit| && b in s.files && Landing(s, b, key)
    ensures b in Step(s, Undo(i, true)).files
    ensures Now(Step(s, Undo(i, true)), b, key)
            == if About(s.audit[i], b, key) && s.audit[i].before.Some? then s.audit[i].before else Now(s, b, key)
  {
    var row := s.audit[i];
    StepNow(s, Undo(i, true), b, key);
    if About(row, b, key) && row.before.Some? {
      assert GoodRow(row);
      assert Changes(s, Undo(i, true), b, key, row.before.value);
      TrimmedIsStripped(row.before.value);
    }
  }

  lemma UndoFollows(p: Properties, audit: seq<Row>, n: nat, b: int, key: string, now: Option<string>, r: Option<string>)
    requires 0 < n <= |audit| && Follows(p, audit[..n], b, key, now)
    requires var row := audit[n - 1];
             if About(row, b, key)
             then row.before == Lookup(Replay(p, audit[..n - 1], b), key) && r == (if row.before.Some? then row.before else now)
             else r == now
    ensures Follows(p, audit[..n - 1], b, key, r)
    ensures r.Some? <==> now.Some?
  {
    ReplaySets(p, audit, n, b, key);
  }

  lemma ReplaySets(p: Properties, audit: seq<Row>, n: nat, b: int, key: string)
    requires 0 < n <= |audit|
    ensures Lookup(Replay(p, audit[..n], b), key)
            == if About(audit[n - 1], b, key) then Some(Strip(audit[n - 1].after))
               else Lookup(Replay(p, audit[..n - 1], b), key)
    ensures key in p ==> key in Replay(p, audit[..n - 1], b)
  {
    assert audit[..n][..n - 1] == audit[..n - 1];
    ReplayIsLatestRow(p, audit[..n - 1], b, key);
  }

  ghost function KeysLogged(audit: seq<Row>, b: int): iset<string> {
    iset row | row in audit && row.broker == b :: row.key
  }

  // After the whole log has been rolled back, a key is as it was, or was added by the log.
  ghost predicate Unwound(p: Properties, logged: iset<string>, r: Option<string>, key: string) {
    if key in p then r == Lookup(p, key) else r.Some? <==> key in logged
  }

  lemma {:induction false} StuckNeverChanges(files: map<int, string>, ops: seq<Op>, b: int, key: string)
    requires GoodOps(ops) && b in files && GoodKey(key) && !Lands(Lines(files[b]), key)
    ensures var s := Run(Store(files, []), ops);
            b in s.files && !Landing(s, b, key) && Now(s, b, key) == Lookup(ParseFile(files[b]), key)
  {
    if ops != [] {
      var before, op := ops[..|ops| - 1], ops[|ops| - 1];
      StuckNeverChanges(files, before, b, key);
      RunKeepsSound(Store(files, []), before);
      StepKeepsLanding(Run(Store(files, []), before), op, b, key);
      StepNow(Run(Store(files, []), before), op, b, key);
    }
  }

  lemma UnwoundStuck(files: map<int, string>, ops: seq<Op>, b: int, key: string)
    requires GoodOps(ops) && b in files && GoodKey(key) && !Lands(Lines(files[b]), key)
    ensures var s := Run(Store(files, []), ops);
            var r := Unwind(s, |s.audit|);
            b in r.files && key in ParseFile(files[b]) && Now(r, b, key) == Lookup(ParseFile(files[b]), key)
  {
    var s := Run(Store(files, []), ops);
    StuckNeverChanges(files, ops, b, key);
    RunKeepsSound(Store(files, []), ops);
    UnwindStuck(s, |s.audit|, b, key);
    StuckMeansAssigned(Lines(files[b]), key);
  }

  lemma LoggedIff(audit: seq<Row>, b: int, key: string)
    ensures key in KeysLogged(audit, b) <==> LatestRow(audit, b, key).Some?
  {
    if key in KeysLogged(audit, b) {
      var row :| row in audit && row.broker == b && row.key == key;
      assert About(row, b, key);
    }
  }

  lemma UnwoundLanding(files: map<int, string>, ops: seq<Op>, b: int, key: string)
    requires GoodOps(ops) && b in files && GoodKey(key) && Lands(Lines(files[b]), key)
    ensures var s := Run(Store(files, []), ops);
            var r := Unwind(s, |s.audit|);
            b in r.files && Unwound(ParseFile(files[b]), KeysLogged(s.audit, b), Now(r, b, key), key)
  {
    var s, p := Run(Store(files, []), ops), ParseFile(files[b]);
    RunExplainsKey(files, ops, b, key);
    RunKeepsSound(Store(files, []), ops);
    assert s.audit[..|s.audit|] == s.audit;
    UnwindLanding(p, s, |s.audit|, b, key);
    ReplayIsLatestRow(p, s.audit, b, key);
    LoggedIff(s.audit, b, key);
  }

  lemma UnwoundUntouched(files: map<int, string>, ops: seq<Op>, b: int, key: string)
    requires GoodOps(ops) && b in files && !GoodKey(key)
    ensures var s := Run(Store(files, []), ops);
            var r := Unwind(s, |s.audit|);
            b in r.files && Unwound(ParseFile(files[b]), KeysLogged(s.audit, b), Now(r, b, key), key)
  {
    var s, p := Run(Store(files, []), ops), ParseFile(files[b]);
    RunExplainsKey(files, ops, b, key);
    RunKeepsSound(Store(files, []), ops);
    UnwindStuck(s, |s.audit|, b, key);
    ReplayIsLatestRow(p, s.audit, b, key);
    LoggedIff(s.audit, b, key);
    LoggedKeysAreGood(s, b, key);
  }

  lemma LoggedKeysAreGood(s: Store, b: int, key: string)
    requires Sound(s)
    ensures key in KeysLogged(s.audit, b) ==> GoodKey(key)
  {
    if key in KeysLogged(s.audit, b) {
      var row :| row in s.audit && row.broker == b && row.key == key;
      var i :| 0 <= i < |s.audit| && s.audit[i] == row;
      assert GoodRow(s.audit[i]);
    }
  }

  lemma SameMap<K(!new), V>(p: map<K, V>, q: map<K, V>, added: iset<K>)
    requires forall k :: if k in p then k in q && q[k] == p[k] else k in q <==> k in added
    ensures q == p <==> forall k :: k in added ==> k in p
  {
    if forall k :: k in added ==> k in p {
      assert q.Keys == p.Keys;
    }
  }

  /** After any run on any file, rolling back every row newest first brings a broker's parsed
      file back to the initial one exactly when the log never added a key to that broker. */
  lemma UnwindRestoresIff(files: map<int, string>, ops: seq<Op>, b: int)
    requires GoodOps(ops) && b in files
    ensures var s := Run(Store(files, []), ops);
            var r := Unwind(s, |s.audit|);
            && b in r.files
            && (ParseFile(r.files[b]) == ParseFile(files[b])
                <==> forall key :: key in KeysLogged(s.audit, b) ==> key in ParseFile(files[b]))
  {
    var s := Run(Store(files, []), ops);
    var r, p := Unwind(s, |s.audit|), ParseFile(files[b]);
    UnwoundKey(files, ops, b, "");
    var q := ParseFile(r.files[b]);
    forall key
      ensures if key in p then key in q && q[key] == p[key] else key in q <==> key in KeysLogged(s.audit, b)
    {
      UnwoundKey(files, ops, b, key);
    }
    SameMap(p, q, KeysLogged(s.audit, b));
  }

  lemma UnwoundKey(files: map<int, string>, ops: seq<Op>, b: int, key: string)
    requires GoodOps(ops) && b in files
    ensures var s := Run(Store(files, []), ops);
            var r := Unwind(s, |s.audit|);
            b in r.files && Unwound(ParseFile(files[b]), KeysLogged(s.audit, b), Now(r, b, key), key)
  {
    if !GoodKey(key) {
      UnwoundUntouched(files, ops, b, key);
    } else if Lands(Lines(files[b]), key) {
      UnwoundLanding(files, ops, b, key);
    } else {
      UnwoundStuck(files, ops, b, key);
    }
  }

  // ---- A key that was not there before ----

  /** On an empty file, setting a key and rolling its row back is refused, and the key stays;
      rolling back the whole log changes nothing either. */
  lemma NewKeyIsNotRolledBack(b: int)
    ensures var s := Store(map[b := ""], []);
            var t := Step(s, Set(b, "a", "1", true));
            && !Succeeds(t, Undo(0, true))
            && b in t.files && b in Unwind(t, |t.audit|).files
            && ParseFile(t.files[b]) != ParseFile(s.files[b])
            && ParseFile(Unwind(t, |t.audit|).files[b]) != ParseFile(s.files[b])
  {
    var files := map[b := ""];
    var s, op := Store(files, []), Set(b, "a", "1", true);
    var t := Step(s, op);
    assert ParseFile("") == map[];
    UpdateThenRollback(s, b, "a", "1");
    assert Changes(s, op, b, "a", "1");
    StepEffect(s, op, b, "a", "1");
    assert [op][..0] == [] && Run(s, []) == s && Run(s, [op]) == t;
    UnwindRestoresIff(files, [op], b);
    assert t.audit[0].broker == b && t.audit[0] in t.audit;
    assert "a" in KeysLogged(t.audit, b);
  }
}
