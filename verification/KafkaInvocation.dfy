/** Kafka command lines: how create_acl prints one and how the backend parses it back
    into the pieces the agent expects. */
module KafkaInvocation {
  import opened Wrappers
  import opened Text
  import opened ShellWords

  const BOOTSTRAP_FLAG := "--bootstrap-server"
  const CONFIG_FLAG := "--command-config"

  predicate IsFlag(t: string) {
    t == BOOTSTRAP_FLAG || t == CONFIG_FLAG
  }

  datatype Invocation = Invocation(
    verb: string, installDir: string, bootstrap: string, extraArgs: seq<string>, commandConfig: Option<string>)

  function VerbOf(script: string): Option<string> {
    if script == "kafka-topics.sh" then Some("topics")
    else if script == "kafka-configs.sh" then Some("configs")
    else if script == "kafka-acls.sh" then Some("acls")
    else if script == "kafka-consumer-groups.sh" then Some("consumer_groups")
    else None
  }

  /** Last position at most `i` where `sub` occurs, or -1. */
  function RFindFrom(s: string, sub: string, i: int): (r: int)
    requires i <= |s|
    ensures r <= i || r == -1
    ensures r >= 0 ==> OccursAt(s, r, sub)
    ensures forall j :: 0 <= j <= i && OccursAt(s, j, sub) ==> j <= r
    decreases i + 1
  {
    if i < 0 then -1
    else if OccursAt(s, i, sub) then i
    else RFindFrom(s, sub, i - 1)
  }

  /** What the argument scan has gathered so far. */
  datatype Args = Args(bootstrap: string, config: Option<string>, extra: seq<string>)

  function ScanArgs(ts: seq<string>, acc: Args): Args {
    if ts == [] then acc
    else if ts[0] == BOOTSTRAP_FLAG && |ts| > 1 then ScanArgs(ts[2..], acc.(bootstrap := ts[1]))
    else if ts[0] == CONFIG_FLAG && |ts| > 1 then ScanArgs(ts[2..], acc.(config := Some(ts[1])))
    else ScanArgs(ts[1..], acc.(extra := acc.extra + [ts[0]]))
  }

  function ParseTokens(tokens: seq<string>): Option<Invocation> {
    if tokens == [] || !Contains(tokens[0], "/bin/kafka-") || !EndsWith(tokens[0], ".sh") then None
    else
      var path := tokens[0];
      var bin := RFindFrom(path, "/bin/", |path|);
      if bin < 0 then None
      else
        match VerbOf(path[bin + |"/bin/"|..])
        case None => None
        case Some(verb) =>
          var args := ScanArgs(tokens[1..], Args("", None, []));
          if args.bootstrap == "" then None
          else Some(Invocation(verb, path[..bin], args.bootstrap, args.extra, args.config))
  }

  /** _parse_kafka_invocation: the index walk over the split command line. */
  method ParseInvocation(cmd: string) returns (r: Option<Invocation>)
    ensures r == match SplitWords(cmd) case None => None case Some(tokens) => ParseTokens(tokens)
  {
    var split := SplitCommand(cmd);
    if split.None? || split.value == [] {
      return None;
    }
    var tokens := split.value;
    var path := tokens[0];
    if !Contains(path, "/bin/kafka-") || !EndsWith(path, ".sh") {
      return None;
    }
    var bin := RFindFrom(path, "/bin/", |path|);
    if bin < 0 {
      return None;
    }
    var verb := VerbOf(path[bin + |"/bin/"|..]);
    if verb.None? {
      return None;
    }
    var bootstrap, config, extra := "", None, [];
    var i := 1;
    while i < |tokens|
      invariant 1 <= i <= |tokens|
      invariant ScanArgs(tokens[1..], Args("", None, [])) == ScanArgs(tokens[i..], Args(bootstrap, config, extra))
    {
      var t := tokens[i];
      ghost var rest := tokens[i..];
      assert rest[1..] == tokens[i + 1..];
      if t == BOOTSTRAP_FLAG && i + 1 < |tokens| {
        assert rest[2..] == tokens[i + 2..];
        bootstrap, i := tokens[i + 1], i + 2;
      } else if t == CONFIG_FLAG && i + 1 < |tokens| {
        assert rest[2..] == tokens[i + 2..];
        config, i := Some(tokens[i + 1]), i + 2;
      } else {
        extra, i := extra + [t], i + 1;
      }
    }
    if bootstrap == "" {
      return None;
    }
    return Some(Invocation(verb.value, path[..bin], bootstrap, extra, config));
  }

  // ---- The general round trip ----

  function ScriptOf(verb: string): string {
    if verb == "topics" then "kafka-topics.sh"
    else if verb == "configs" then "kafka-configs.sh"
    else if verb == "acls" then "kafka-acls.sh"
    else "kafka-consumer-groups.sh"
  }

  predicate KnownVerb(verb: string) {
    verb == "topics" || verb == "configs" || verb == "acls" || verb == "consumer_groups"
  }

  function InvocationTokens(verb: string, installDir: string, bootstrap: string, args: seq<string>): seq<string> {
    [installDir + "/bin/" + ScriptOf(verb), BOOTSTRAP_FLAG, bootstrap] + args
  }

  /** Some argument other than the last one is spelled like a flag of the parser. */
  predicate FlagBeforeLast(args: seq<string>) {
    exists j :: 0 <= j < |args| - 1 && IsFlag(args[j])
  }

  lemma {:induction false} ScanWithoutFlags(ts: seq<string>, acc: Args)
    requires !FlagBeforeLast(ts)
    ensures ScanArgs(ts, acc) == acc.(extra := acc.extra + ts)
    decreases |ts|
  {
    if ts == [] {
      assert acc.extra + ts == acc.extra;
    } else {
      assert |ts| > 1 ==> !IsFlag(ts[0]);
      forall j | 0 <= j < |ts[1..]| - 1 ensures !IsFlag(ts[1..][j]) {
        assert ts[1..][j] == ts[j + 1];
      }
      ScanWithoutFlags(ts[1..], acc.(extra := acc.extra + [ts[0]]));
      assert acc.extra + [ts[0]] + ts[1..] == acc.extra + ts;
    }
  }

  lemma {:induction false} ScanLosesFlags(ts: seq<string>, acc: Args)
    ensures |ScanArgs(ts, acc).extra| <= |acc.extra| + |ts|
    ensures FlagBeforeLast(ts) ==> |ScanArgs(ts, acc).extra| < |acc.extra| + |ts|
    decreases |ts|
  {
    if ts == [] {
    } else if ts[0] == BOOTSTRAP_FLAG && |ts| > 1 {
      ScanLosesFlags(ts[2..], acc.(bootstrap := ts[1]));
    } else if ts[0] == CONFIG_FLAG && |ts| > 1 {
      ScanLosesFlags(ts[2..], acc.(config := Some(ts[1])));
    } else {
      ScanLosesFlags(ts[1..], acc.(extra := acc.extra + [ts[0]]));
      if FlagBeforeLast(ts) {
        var j :| 0 <= j < |ts| - 1 && IsFlag(ts[j]);
        assert ts[1..][j - 1] == ts[j];
      }
    }
  }

  predicate IsScript(name: string) {
    '/' !in name && "kafka-" <= name && EndsWith(name, ".sh")
  }

  lemma AdminScripts()
    ensures IsScript("kafka-topics.sh") && IsScript("kafka-configs.sh")
  {
  }

  lemma AccessScripts()
    ensures IsScript("kafka-acls.sh") && IsScript("kafka-consumer-groups.sh")
  {
  }

  lemma VerbMeansScript(script: string)
    requires VerbOf(script).Some?
    ensures IsScript(script)
  {
    AdminScripts();
    AccessScripts();
  }

  lemma ScriptShape(verb: string)
    requires KnownVerb(verb)
    ensures IsScript(ScriptOf(verb)) && VerbOf(ScriptOf(verb)) == Some(verb)
  {
    AdminScripts();
    AccessScripts();
  }

  /** The last "/bin/" of a script path is the one in front of the script name. */
  lemma LastBin(dir: string, name: string)
    requires '/' !in name
    ensures var path := dir + "/bin/" + name;
            RFindFrom(path, "/bin/", |path|) == |dir| && path[..|dir|] == dir && path[|dir| + 5..] == name
  {
    var bin := "/bin/";
    var path := dir + bin + name;
    assert |bin| == 5 && bin[4] == '/';
    assert path[|dir|..|dir| + 5] == bin;
    assert OccursAt(path, |dir|, bin);
    assert forall k :: |dir| + 5 <= k < |path| ==> path[k] == name[k - |dir| - 5] && path[k] in name;
    forall j | |dir| < j <= |path| ensures !OccursAt(path, j, bin) {
      if j + 5 <= |path| {
        assert path[j..j + 5][4] == path[j + 4];
      }
    }
  }

  lemma BinKafka(dir: string, name: string)
    requires "kafka-" <= name && EndsWith(name, ".sh")
    ensures var path := dir + "/bin/" + name; Contains(path, "/bin/kafka-") && EndsWith(path, ".sh")
  {
    var path := dir + "/bin/" + name;
    assert |"/bin/kafka-"| == 11 && name[..6] == "kafka-";
    assert path[|dir|..|dir| + 11] == "/bin/" + name[..6];
    assert "/bin/" + "kafka-" == "/bin/kafka-";
    assert OccursAt(path, |dir|, "/bin/kafka-");
    assert path[|path| - 3..] == name[|name| - 3..];
  }

  /** What the parser makes of a printed invocation comes down to the scan of its arguments. */
  lemma ParsedInvocation(verb: string, dir: string, bootstrap: string, args: seq<string>)
    requires KnownVerb(verb)
    ensures var a := ScanArgs(args, Args(bootstrap, None, []));
            ParseTokens(InvocationTokens(verb, dir, bootstrap, args))
            == if a.bootstrap == "" then None else Some(Invocation(verb, dir, a.bootstrap, a.extra, a.config))
  {
    var tokens := InvocationTokens(verb, dir, bootstrap, args);
    ScriptShape(verb);
    LastBin(dir, ScriptOf(verb));
    BinKafka(dir, ScriptOf(verb));
    assert tokens[1..] == [BOOTSTRAP_FLAG, bootstrap] + args;
    assert tokens[1..][2..] == args;
  }

  /** Printing an invocation, splitting it and parsing it gives the same verb, directory,
      bootstrap list and arguments back, exactly when the bootstrap list is not empty and no
      argument but the last is spelled like one of the two flags. */
  lemma InvocationRoundTrip(verb: string, dir: string, bootstrap: string, args: seq<string>)
    requires KnownVerb(verb)
    ensures var line := CommandLine(InvocationTokens(verb, dir, bootstrap, args));
            SplitWords(line).Some? &&
            (ParseTokens(SplitWords(line).value) == Some(Invocation(verb, dir, bootstrap, args, None))
             <==> bootstrap != "" && !FlagBeforeLast(args))
  {
    var start := Args(bootstrap, None, []);
    QuoteSplitRoundTrip(InvocationTokens(verb, dir, bootstrap, args));
    ParsedInvocation(verb, dir, bootstrap, args);
    ScanLosesFlags(args, start);
    if !FlagBeforeLast(args) {
      ScanWithoutFlags(args, start);
      assert [] + args == args;
    }
  }

  /** When a trailing --command-config option comes back with the rest: no argument is
      spelled like a flag - or, the one other way, the last argument and the file are both
      spelled like that option. */
  predicate ConfigComesBack(args: seq<string>, config: string) {
    || (forall a :: a in args ==> !IsFlag(a))
    || (args != [] && !FlagBeforeLast(args) && args[|args| - 1] == CONFIG_FLAG == config)
  }

  /** The same with a trailing --command-config option: then the last argument counts too. */
  lemma InvocationWithConfigRoundTrip(verb: string, dir: string, bootstrap: string, args: seq<string>, config: string)
    requires KnownVerb(verb)
    ensures var line := CommandLine(InvocationTokens(verb, dir, bootstrap, args + [CONFIG_FLAG, config]));
            SplitWords(line).Some? &&
            (ParseTokens(SplitWords(line).value) == Some(Invocation(verb, dir, bootstrap, args, Some(config)))
             <==> bootstrap != "" && ConfigComesBack(args, config))
  {
    var all := args + [CONFIG_FLAG, config];
    QuoteSplitRoundTrip(InvocationTokens(verb, dir, bootstrap, all));
    ParsedInvocation(verb, dir, bootstrap, all);
    ScanWithConfig(args, config, bootstrap);
  }

  lemma ScanWithConfig(args: seq<string>, config: string, bootstrap: string)
    ensures ScanArgs(args + [CONFIG_FLAG, config], Args(bootstrap, None, [])) == Args(bootstrap, Some(config), args)
            <==> ConfigComesBack(args, config)
  {
    if forall a :: a in args ==> !IsFlag(a) {
      ScanThenConfig(args, config, Args(bootstrap, None, []));
      assert [] + args == args;
    } else if FlagBeforeLast(args) {
      FlagBeforeLastLost(args, config, bootstrap);
    } else {
      FlagIsLast(args);
      FlagLastComesBack(args[..|args| - 1], args[|args| - 1], config, bootstrap);
      assert args == args[..|args| - 1] + [args[|args| - 1]];
    }
  }

  lemma FlagBeforeLastLost(args: seq<string>, config: string, bootstrap: string)
    requires FlagBeforeLast(args)
    ensures !ConfigComesBack(args, config)
    ensures |ScanArgs(args + [CONFIG_FLAG, config], Args(bootstrap, None, [])).extra| < |args|
  {
    ScanConfigLoses(args, config, Args(bootstrap, None, []));
    var j :| 0 <= j < |args| - 1 && IsFlag(args[j]);
    assert args[j] in args;
  }

  lemma FlagLastComesBack(head: seq<string>, flag: string, config: string, bootstrap: string)
    requires IsFlag(flag) && forall a :: a in head ==> !IsFlag(a)
    ensures ScanArgs(head + [flag] + [CONFIG_FLAG, config], Args(bootstrap, None, []))
              == Args(bootstrap, Some(config), head + [flag])
            <==> flag == CONFIG_FLAG == config
  {
    ScanFlagLast(head, flag, config, Args(bootstrap, None, []));
    assert head + [flag] + [CONFIG_FLAG, config] == head + [flag, CONFIG_FLAG, config];
    assert [] + head + [config] == head + [config];
    assert (head + [config])[|head|] == config && (head + [flag])[|head|] == flag;
  }

  lemma FlagIsLast(args: seq<string>)
    requires !FlagBeforeLast(args) && exists a :: a in args && IsFlag(a)
    ensures args != [] && IsFlag(args[|args| - 1]) && forall a :: a in args[..|args| - 1] ==> !IsFlag(a)
  {
    var a :| a in args && IsFlag(a);
    var i :| 0 <= i < |args| && args[i] == a;
    assert i == |args| - 1;
  }

  lemma {:induction false} ScanFlagLast(head: seq<string>, flag: string, config: string, acc: Args)
    requires IsFlag(flag) && forall a :: a in head ==> !IsFlag(a)
    ensures var r := ScanArgs(head + [flag, CONFIG_FLAG, config], acc);
            && r.extra == acc.extra + head + [config]
            && r.config == (if flag == CONFIG_FLAG then Some(CONFIG_FLAG) else acc.config)
            && (flag == CONFIG_FLAG ==> r.bootstrap == acc.bootstrap)
    decreases |head|
  {
    var ts := head + [flag, CONFIG_FLAG, config];
    FlagsDiffer();
    if head == [] {
      assert ts[2..] == [config];
      ScanWithoutFlags([config], if flag == BOOTSTRAP_FLAG then acc.(bootstrap := CONFIG_FLAG) else acc.(config := Some(CONFIG_FLAG)));
      assert acc.extra + head == acc.extra;
    } else {
      assert ts[1..] == head[1..] + [flag, CONFIG_FLAG, config];
      assert head[0] in head && forall a :: a in head[1..] ==> a in head;
      ScanFlagLast(head[1..], flag, config, acc.(extra := acc.extra + [head[0]]));
      assert acc.extra + [head[0]] + head[1..] == acc.extra + head;
    }
  }

  lemma FlagsDiffer()
    ensures BOOTSTRAP_FLAG != CONFIG_FLAG
  {
    assert |BOOTSTRAP_FLAG| == 18 && |CONFIG_FLAG| == 16;
  }

  lemma {:induction false} ScanConfigLoses(args: seq<string>, config: string, acc: Args)
    requires FlagBeforeLast(args)
    ensures |ScanArgs(args + [CONFIG_FLAG, config], acc).extra| < |acc.extra| + |args|
    decreases |args|
  {
    var ts := args + [CONFIG_FLAG, config];
    if IsFlag(args[0]) {
      var rest := args[2..] + [CONFIG_FLAG, config];
      assert ts[2..] == rest && rest[|rest| - 2] == CONFIG_FLAG;
      assert FlagBeforeLast(rest);
      ScanLosesFlags(rest, if args[0] == BOOTSTRAP_FLAG then acc.(bootstrap := ts[1]) else acc.(config := Some(ts[1])));
    } else {
      var j :| 0 <= j < |args| - 1 && IsFlag(args[j]);
      assert args[1..][j - 1] == args[j];
      assert ts[1..] == args[1..] + [CONFIG_FLAG, config];
      ScanConfigLoses(args[1..], config, acc.(extra := acc.extra + [args[0]]));
    }
  }

  lemma {:induction false} ScanThenConfig(args: seq<string>, config: string, acc: Args)
    requires forall a :: a in args ==> !IsFlag(a)
    ensures ScanArgs(args + [CONFIG_FLAG, config], acc) == acc.(extra := acc.extra + args, config := Some(config))
    decreases |args|
  {
    var ts := args + [CONFIG_FLAG, config];
    if args == [] {
      assert ts == [CONFIG_FLAG, config] && ts[2..] == [] && acc.extra + args == acc.extra;
    } else {
      assert ts[0] == args[0] && ts[1..] == args[1..] + [CONFIG_FLAG, config];
      assert args[0] in args && forall a :: a in args[1..] ==> a in args;
      ScanThenConfig(args[1..], config, acc.(extra := acc.extra + [args[0]]));
      assert acc.extra + [args[0]] + args[1..] == acc.extra + args;
    }
  }

  // ---- create_acl ----

  datatype ResourceType = Topic | Group | Cluster | TransactionalId

  /** A create_acl request after normalisation; `host` is "*" when unrestricted. */
  datatype AclRequest = AclRequest(
    principal: string, resourceType: ResourceType, resourceName: string, patternType: string,
    operations: seq<string>, allow: bool, host: string)

  // What the normaliser guarantees about the fields printed below.
  predicate Normalized(req: AclRequest) {
    && ':' in req.principal
    && req.patternType in {"literal", "prefixed"}
    && req.operations != []
    && forall op :: op in req.operations ==>
         op in {"Read", "Write", "Create", "Describe", "Alter", "Delete", "All"}
  }

  function ResourceFlag(t: ResourceType): string {
    match t
    case Topic => "--topic"
    case Group => "--group"
    case Cluster => "--cluster"
    case TransactionalId => "--transactional-id"
  }

  function PermissionFlag(allow: bool): string {
    if allow then "--allow-principal" else "--deny-principal"
  }

  function OperationArgs(ops: seq<string>): seq<string> {
    if ops == [] then [] else OperationArgs(ops[..|ops| - 1]) + ["--operation", ops[|ops| - 1]]
  }

  function ResourceArgs(req: AclRequest): seq<string> {
    if req.resourceType.Cluster? then ["--cluster"] else [ResourceFlag(req.resourceType), req.resourceName]
  }

  /** The arguments a kafka-acls.sh call must receive for the request. */
  function AclArgs(req: AclRequest): seq<string> {
    PrincipalArgs(req) + ResourceArgs(req) + OperationArgs(req.operations) + PatternArgs(req)
  }

  function PrincipalArgs(req: AclRequest): seq<string> {
    ["--add", PermissionFlag(req.allow), req.principal]
  }

  function PatternArgs(req: AclRequest): seq<string> {
    ["--resource-pattern-type", req.patternType] + (if req.host == "*" then [] else ["--host", req.host])
  }

  lemma {:induction false} JoinAppend(a: seq<string>, b: seq<string>, sep: string)
    requires a != [] && b != []
    ensures Join(a + b, sep) == Join(a, sep) + sep + Join(b, sep)
    decreases |a|
  {
    if |a| == 1 {
      assert (a + b)[1..] == b;
    } else {
      assert (a + b)[1..] == a[1..] + b;
      JoinAppend(a[1..], b, sep);
    }
  }

  lemma {:induction false} QuoteAllAppend(a: seq<string>, b: seq<string>)
    ensures QuoteAll(a + b) == QuoteAll(a) + QuoteAll(b)
    ensures |QuoteAll(a)| == |a|
    decreases |a|
  {
    if a == [] {
      assert a + b == b;
    } else {
      assert (a + b)[1..] == a[1..] + b;
      QuoteAllAppend(a[1..], b);
    }
  }

  /** The pieces gathered so far, joined with blanks, are the command line of `tokens`. */
  ghost predicate Prints(parts: seq<string>, tokens: seq<string>) {
    parts != [] && tokens != [] && Join(parts, " ") == CommandLine(tokens)
  }

  /** Appending one printed piece to the list of pieces appends its tokens to the command. */
  lemma PieceAppends(parts: seq<string>, tokens: seq<string>, piece: string, more: seq<string>)
    requires Prints(parts, tokens) && more != [] && piece == CommandLine(more)
    ensures Prints(parts + [piece], tokens + more)
  {
    JoinAppend(parts, [piece], " ");
    QuoteAllAppend(tokens, more);
    QuoteAllAppend(more, []);
    JoinAppend(QuoteAll(tokens), QuoteAll(more), " ");
  }

  function Piece(flag: string, value: string): string {
    flag + " " + Quote(value)
  }

  lemma WordAppends(parts: seq<string>, tokens: seq<string>, word: string)
    requires Prints(parts, tokens) && word != "" && AllSafe(word)
    ensures Prints(parts + [word], tokens + [word])
  {
    assert QuoteAll([word]) == [word];
    PieceAppends(parts, tokens, word, [word]);
  }

  lemma PairAppends(parts: seq<string>, tokens: seq<string>, flag: string, value: string)
    requires Prints(parts, tokens) && flag != "" && AllSafe(flag)
    ensures Prints(parts + [Piece(flag, value)], tokens + [flag, value])
  {
    QuoteAllAppend([flag], [value]);
    assert [flag] + [value] == [flag, value];
    assert QuoteAll([flag]) == [flag] && QuoteAll([value]) == [Quote(value)];
    JoinAppend([flag], [Quote(value)], " ");
    PieceAppends(parts, tokens, Piece(flag, value), [flag, value]);
  }

  lemma SafeDashes(s: string)
    requires forall c :: c in s ==> c == '-' || 'a' <= c <= 'z'
    ensures AllSafe(s)
  {
    assert forall i :: 0 <= i < |s| ==> s[i] in s;
  }

  lemma SafeWords()
    ensures AllSafe(BOOTSTRAP_FLAG) && AllSafe("--add") && AllSafe("--operation")
    ensures AllSafe("--resource-pattern-type") && AllSafe("--host")
  {
    SafeDashes(BOOTSTRAP_FLAG);
    SafeDashes("--add");
    SafeDashes("--operation");
    SafeDashes("--resource-pattern-type");
    SafeDashes("--host");
  }

  lemma SafePermission(allow: bool)
    ensures AllSafe(PermissionFlag(allow))
  {
    SafeDashes(PermissionFlag(allow));
  }

  lemma SafeResource(t: ResourceType)
    ensures AllSafe(ResourceFlag(t))
  {
    match t
    case Topic => SafeDashes("--topic");
    case Group => SafeDashes("--group");
    case Cluster => SafeDashes("--cluster");
    case TransactionalId => SafeDashes("--transactional-id");
  }

  lemma SafeFlags(req: AclRequest)
    ensures AllSafe(BOOTSTRAP_FLAG) && AllSafe("--add") && AllSafe(PermissionFlag(req.allow))
    ensures AllSafe(ResourceFlag(req.resourceType)) && AllSafe("--operation")
    ensures AllSafe("--resource-pattern-type") && AllSafe("--host")
  {
    SafeWords();
    SafePermission(req.allow);
    SafeResource(req.resourceType);
  }

  lemma ScriptPrints(kafkaHome: string, bootstrap: string)
    ensures Prints([Quote(kafkaHome + "/bin/" + ScriptOf("acls")), Piece(BOOTSTRAP_FLAG, bootstrap)],
                   InvocationTokens("acls", kafkaHome, bootstrap, []))
  {
    var script := kafkaHome + "/bin/" + ScriptOf("acls");
    SafeWords();
    assert QuoteAll([script]) == [Quote(script)];
    PairAppends([Quote(script)], [script], BOOTSTRAP_FLAG, bootstrap);
    assert [Quote(script)] + [Piece(BOOTSTRAP_FLAG, bootstrap)] == [Quote(script), Piece(BOOTSTRAP_FLAG, bootstrap)];
    assert [script] + [BOOTSTRAP_FLAG, bootstrap] == InvocationTokens("acls", kafkaHome, bootstrap, []);
  }

  lemma AddPrints(parts: seq<string>, kafkaHome: string, bootstrap: string)
    requires Prints(parts, InvocationTokens("acls", kafkaHome, bootstrap, []))
    ensures Prints(parts + ["--add"], InvocationTokens("acls", kafkaHome, bootstrap, ["--add"]))
  {
    SafeWords();
    WordAppends(parts, InvocationTokens("acls", kafkaHome, bootstrap, []), "--add");
    InvocationAppends("acls", kafkaHome, bootstrap, [], ["--add"]);
    assert [] + ["--add"] == ["--add"];
  }

  lemma PrincipalPrints(parts: seq<string>, kafkaHome: string, bootstrap: string, req: AclRequest)
    requires Prints(parts, InvocationTokens("acls", kafkaHome, bootstrap, ["--add"]))
    ensures Prints(parts + [Piece(PermissionFlag(req.allow), req.principal)],
                   InvocationTokens("acls", kafkaHome, bootstrap, PrincipalArgs(req)))
  {
    var flag := PermissionFlag(req.allow);
    SafePermission(req.allow);
    PairAppends(parts, InvocationTokens("acls", kafkaHome, bootstrap, ["--add"]), flag, req.principal);
    InvocationAppends("acls", kafkaHome, bootstrap, ["--add"], [flag, req.principal]);
    assert ["--add"] + [flag, req.principal] == PrincipalArgs(req);
  }

  /** The part of the command that does not depend on the resource. */
  method AclHead(kafkaHome: string, bootstrap: string, req: AclRequest) returns (parts: seq<string>)
    ensures Prints(parts, InvocationTokens("acls", kafkaHome, bootstrap, PrincipalArgs(req)))
  {
    parts := [Quote(kafkaHome + "/bin/" + ScriptOf("acls")), Piece(BOOTSTRAP_FLAG, bootstrap)];
    ScriptPrints(kafkaHome, bootstrap);
    AddPrints(parts, kafkaHome, bootstrap);
    parts := parts + ["--add"];
    PrincipalPrints(parts, kafkaHome, bootstrap, req);
    parts := parts + [Piece(PermissionFlag(req.allow), req.principal)];
  }

  lemma OperationPrints(parts: seq<string>, tokens: seq<string>, ops: seq<string>, i: nat)
    requires i < |ops| && Prints(parts, tokens + OperationArgs(ops[..i]))
    ensures Prints(parts + [Piece("--operation", ops[i])], tokens + OperationArgs(ops[..i + 1]))
  {
    assert ops[..i + 1][..i] == ops[..i];
    SafeDashes("--operation");
    PairAppends(parts, tokens + OperationArgs(ops[..i]), "--operation", ops[i]);
    assert tokens + OperationArgs(ops[..i]) + ["--operation", ops[i]] == tokens + OperationArgs(ops[..i + 1]);
  }

  method AddOperations(parts0: seq<string>, ops: seq<string>, ghost tokens: seq<string>) returns (parts: seq<string>)
    requires Prints(parts0, tokens)
    ensures Prints(parts, tokens + OperationArgs(ops))
  {
    parts := parts0;
    assert tokens + OperationArgs(ops[..0]) == tokens;
    for i := 0 to |ops|
      invariant Prints(parts, tokens + OperationArgs(ops[..i]))
    {
      OperationPrints(parts, tokens, ops, i);
      parts := parts + [Piece("--operation", ops[i])];
    }
    assert ops[..|ops|] == ops;
  }

  method AddPattern(parts0: seq<string>, req: AclRequest, ghost tokens: seq<string>) returns (parts: seq<string>)
    requires Prints(parts0, tokens)
    ensures Prints(parts, tokens + PatternArgs(req))
  {
    SafeFlags(req);
    var pattern := "--resource-pattern-type";
    PairAppends(parts0, tokens, pattern, req.patternType);
    parts := parts0 + [Piece(pattern, req.patternType)];
    if req.host != "*" {
      PairAppends(parts, tokens + [pattern, req.patternType], "--host", req.host);
      parts := parts + [Piece("--host", req.host)];
      assert tokens + [pattern, req.patternType] + ["--host", req.host] == tokens + PatternArgs(req);
    } else {
      assert [pattern, req.patternType] == PatternArgs(req);
    }
  }

  method AddResource(parts0: seq<string>, req: AclRequest, ghost tokens: seq<string>) returns (parts: seq<string>)
    requires Prints(parts0, tokens)
    ensures Prints(parts, tokens + ResourceArgs(req))
  {
    SafeFlags(req);
    var flag := ResourceFlag(req.resourceType);
    if req.resourceType.Cluster? {
      WordAppends(parts0, tokens, flag);
      parts := parts0 + [flag];
    } else {
      PairAppends(parts0, tokens, flag, req.resourceName);
      parts := parts0 + [Piece(flag, req.resourceName)];
    }
  }

  // ---- What the options say ----

  /** The options of kafka-acls.sh that a request can need. */
  datatype AclOption =
    | AddOption | PrincipalOption(allow: bool) | ResourceOption(resource: ResourceType)
    | OperationOption | PatternOption | HostOption | NoOption

  function OptionOf(word: string): AclOption {
    if word == "--add" then AddOption
    else if word == "--allow-principal" then PrincipalOption(true)
    else if word == "--deny-principal" then PrincipalOption(false)
    else if word == "--topic" then ResourceOption(Topic)
    else if word == "--group" then ResourceOption(Group)
    else if word == "--cluster" then ResourceOption(Cluster)
    else if word == "--transactional-id" then ResourceOption(TransactionalId)
    else if word == "--operation" then OperationOption
    else if word == "--resource-pattern-type" then PatternOption
    else if word == "--host" then HostOption
    else NoOption
  }

  predicate TakesValue(option: AclOption) {
    option != AddOption && option != ResourceOption(Cluster) && option != NoOption
  }

  /** What has been read so far. */
  datatype AclSettings = AclSettings(
    add: bool, permission: Option<(bool, string)>, resource: Option<(ResourceType, string)>,
    operations: seq<string>, patternType: string, host: string)

  const NO_SETTINGS := AclSettings(false, None, None, [], "literal", "*")

  function WithValue(s: AclSettings, option: AclOption, value: string): AclSettings {
    match option
    case PrincipalOption(allow) => s.(permission := Some((allow, value)))
    case ResourceOption(t) => s.(resource := Some((t, value)))
    case OperationOption => s.(operations := s.operations + [value])
    case PatternOption => s.(patternType := value)
    case HostOption => s.(host := value)
    case _ => s
  }

  /** Reads the options of a kafka-acls.sh call; None is a word that cannot be read. */
  function ReadOptions(words: seq<string>, s: AclSettings): Option<AclSettings> {
    if words == [] then Some(s)
    else
      var option := OptionOf(words[0]);
      if option == AddOption then ReadOptions(words[1..], s.(add := true))
      else if option == ResourceOption(Cluster) then ReadOptions(words[1..], s.(resource := Some((Cluster, ""))))
      else if option == NoOption || |words| < 2 then None
      else ReadOptions(words[2..], WithValue(s, option, words[1]))
  }

  /** The entry that a kafka-acls.sh call with these words adds, if it adds one. */
  function ReadRequest(words: seq<string>): Option<AclRequest> {
    match ReadOptions(words, NO_SETTINGS)
    case None => None
    case Some(s) =>
      if !s.add || s.permission.None? || s.resource.None? then None
      else Some(AclRequest(s.permission.value.1, s.resource.value.0, s.resource.value.1, s.patternType,
                           s.operations, s.permission.value.0, s.host))
  }

  /** A request as far as it matters: the cluster resource has no name. */
  function Meaning(req: AclRequest): AclRequest {
    if req.resourceType.Cluster? then req.(resourceName := "") else req
  }

  lemma PlainOptions()
    ensures OptionOf("--add") == AddOption && OptionOf("--operation") == OperationOption
    ensures OptionOf("--resource-pattern-type") == PatternOption && OptionOf("--host") == HostOption
  {
  }

  lemma PermissionOption(allow: bool)
    ensures OptionOf(PermissionFlag(allow)) == PrincipalOption(allow)
  {
    assert "--deny-principal"[2] == 'd' && "--allow-principal"[2] == 'a';
  }

  lemma ResourceOptionOf(t: ResourceType)
    ensures OptionOf(ResourceFlag(t)) == ResourceOption(t)
  {
    assert "--topic"[2] == 't' && "--group"[2] == 'g' && "--cluster"[2] == 'c' && "--transactional-id"[2] == 't';
  }

  lemma ReadPair(flag: string, value: string, rest: seq<string>, s: AclSettings)
    requires TakesValue(OptionOf(flag))
    ensures ReadOptions([flag, value] + rest, s) == ReadOptions(rest, WithValue(s, OptionOf(flag), value))
  {
    assert ([flag, value] + rest)[2..] == rest;
  }

  lemma ReadOperation(op: string, rest: seq<string>, s: AclSettings)
    ensures ReadOptions(["--operation", op] + rest, s) == ReadOptions(rest, s.(operations := s.operations + [op]))
  {
    PlainOptions();
    ReadPair("--operation", op, rest, s);
  }

  lemma OperationArgsSnoc(ops: seq<string>, rest: seq<string>)
    requires ops != []
    ensures OperationArgs(ops) + rest
            == OperationArgs(ops[..|ops| - 1]) + (["--operation", ops[|ops| - 1]] + rest)
  {
    ConcatInOrder(OperationArgs(ops[..|ops| - 1]), ["--operation", ops[|ops| - 1]], rest);
  }

  lemma {:induction false} ReadOperations(ops: seq<string>, rest: seq<string>, s: AclSettings)
    ensures ReadOptions(OperationArgs(ops) + rest, s) == ReadOptions(rest, s.(operations := s.operations + ops))
    decreases ops
  {
    if ops == [] {
      assert OperationArgs(ops) + rest == rest && s.operations + ops == s.operations;
    } else {
      var front, last := ops[..|ops| - 1], ops[|ops| - 1];
      OperationArgsSnoc(ops, rest);
      ReadOperations(front, ["--operation", last] + rest, s);
      ReadOperation(last, rest, s.(operations := s.operations + front));
      assert s.operations + front + [last] == s.operations + ops;
    }
  }

  lemma ReadPrincipal(req: AclRequest, rest: seq<string>)
    ensures ReadOptions(PrincipalArgs(req) + rest, NO_SETTINGS)
            == ReadOptions(rest, NO_SETTINGS.(add := true, permission := Some((req.allow, req.principal))))
  {
    PlainOptions();
    PermissionOption(req.allow);
    var pair := [PermissionFlag(req.allow), req.principal];
    assert PrincipalArgs(req) + rest == ["--add"] + (pair + rest);
    assert (["--add"] + (pair + rest))[1..] == pair + rest;
    ReadPair(PermissionFlag(req.allow), req.principal, rest, NO_SETTINGS.(add := true));
  }

  lemma ReadResource(req: AclRequest, rest: seq<string>, s: AclSettings)
    ensures ReadOptions(ResourceArgs(req) + rest, s)
            == ReadOptions(rest, s.(resource := Some((req.resourceType, Meaning(req).resourceName))))
  {
    ResourceOptionOf(req.resourceType);
    if req.resourceType.Cluster? {
      assert (["--cluster"] + rest)[1..] == rest;
    } else {
      ReadPair(ResourceFlag(req.resourceType), req.resourceName, rest, s);
    }
  }

  lemma ReadPattern(req: AclRequest, s: AclSettings)
    requires s.host == "*"
    ensures ReadOptions(PatternArgs(req), s) == Some(s.(patternType := req.patternType, host := req.host))
  {
    var pattern, t := "--resource-pattern-type", s.(patternType := req.patternType);
    PlainOptions();
    if req.host == "*" {
      assert PatternArgs(req) == [pattern, req.patternType] + [];
      ReadPair(pattern, req.patternType, [], s);
    } else {
      assert PatternArgs(req) == [pattern, req.patternType] + (["--host", req.host] + []);
      ReadPair(pattern, req.patternType, ["--host", req.host] + [], s);
      ReadPair("--host", req.host, [], t);
    }
  }

  /** The arguments express the request they were made for. */
  lemma ArgsExpressRequest(req: AclRequest)
    ensures ReadRequest(AclArgs(req)) == Some(Meaning(req))
  {
    var ops, tail := OperationArgs(req.operations), PatternArgs(req);
    var s := NO_SETTINGS.(add := true, permission := Some((req.allow, req.principal)));
    var t := s.(resource := Some((req.resourceType, Meaning(req).resourceName)));
    assert AclArgs(req) == PrincipalArgs(req) + (ResourceArgs(req) + (ops + tail));
    ReadPrincipal(req, ResourceArgs(req) + (ops + tail));
    ReadResource(req, ops + tail, s);
    ReadOperations(req.operations, tail, t);
    assert t.operations + req.operations == req.operations;
    ReadPattern(req, t.(operations := req.operations));
  }

  lemma AclScript()
    ensures ScriptOf("acls") == "kafka-acls.sh"
  {
    assert "acls"[0] == 'a' && "topics"[0] == 't' && "configs"[0] == 'c';
  }

  /** The scripts the backend calls, in words. */
  lemma InvocationWords(dir: string, bootstrap: string, args: seq<string>)
    ensures InvocationTokens("topics", dir, bootstrap, args)
            == [dir + "/bin/" + "kafka-topics.sh", "--bootstrap-server", bootstrap] + args
    ensures InvocationTokens("configs", dir, bootstrap, args)
            == [dir + "/bin/" + "kafka-configs.sh", "--bootstrap-server", bootstrap] + args
    ensures InvocationTokens("acls", dir, bootstrap, args)
            == [dir + "/bin/" + "kafka-acls.sh", "--bootstrap-server", bootstrap] + args
    ensures InvocationTokens("consumer_groups", dir, bootstrap, args)
            == [dir + "/bin/" + "kafka-consumer-groups.sh", "--bootstrap-server", bootstrap] + args
    ensures CONFIG_FLAG == "--command-config"
  {
    assert "acls"[0] == 'a' && "topics"[0] == 't' && "configs"[0] == 'c' && "consumer_groups"[0] == 'c';
    assert "configs"[3] == 'f' && "consumer_groups"[3] == 's';
  }

  /** Requests that ask for different things are printed as different commands. */
  lemma DifferentRequestsDiffer(home: string, bootstrap: string, req: AclRequest,
                                home': string, bootstrap': string, req': AclRequest)
    requires CommandLine(InvocationTokens("acls", home, bootstrap, AclArgs(req)))
             == CommandLine(InvocationTokens("acls", home', bootstrap', AclArgs(req')))
    ensures home == home' && bootstrap == bootstrap' && Meaning(req) == Meaning(req')
  {
    var a := InvocationTokens("acls", home, bootstrap, AclArgs(req));
    var b := InvocationTokens("acls", home', bootstrap', AclArgs(req'));
    CommandLineInjective(a, b);
    assert a[0] == b[0] && a[1] == b[1] && a[2] == b[2];
    SameFront(home, home', "/bin/" + ScriptOf("acls"));
    assert home + "/bin/" + ScriptOf("acls") == home + ("/bin/" + ScriptOf("acls"));
    assert home' + "/bin/" + ScriptOf("acls") == home' + ("/bin/" + ScriptOf("acls"));
    assert AclArgs(req) == a[3..] && AclArgs(req') == b[3..];
    ArgsExpressRequest(req);
    ArgsExpressRequest(req');
  }

  lemma SameFront(a: string, b: string, tail: string)
    ensures a + tail == b + tail ==> a == b
  {
    if a + tail == b + tail {
      assert |a| == |b| && a == (a + tail)[..|a|] && b == (b + tail)[..|b|];
    }
  }

  /** The list of command pieces create_acl builds, joined with blanks, is the quoted
      command line of exactly the requested arguments: the words of the command are the
      script, the brokers, and options that say what was requested. */
  method AclCommand(kafkaHome: string, bootstrap: string, req: AclRequest) returns (cmd: string)
    ensures cmd == CommandLine(InvocationTokens("acls", kafkaHome, bootstrap, AclArgs(req)))
    ensures SplitWords(cmd).Some?
    ensures var words := SplitWords(cmd).value;
            && |words| > 3
            && words[..3] == [kafkaHome + "/bin/" + "kafka-acls.sh", "--bootstrap-server", bootstrap]
            && ReadRequest(words[3..]) == Some(Meaning(req))
  {
    var parts := AclHead(kafkaHome, bootstrap, req);
    ghost var tokens := InvocationTokens("acls", kafkaHome, bootstrap, PrincipalArgs(req));
    parts := AddResource(parts, req, tokens);
    tokens := tokens + ResourceArgs(req);
    parts := AddOperations(parts, req.operations, tokens);
    tokens := tokens + OperationArgs(req.operations);
    parts := AddPattern(parts, req, tokens);
    tokens := tokens + PatternArgs(req);
    assert tokens == InvocationTokens("acls", kafkaHome, bootstrap, AclArgs(req)) by {
      InvocationAppends("acls", kafkaHome, bootstrap, PrincipalArgs(req), ResourceArgs(req));
      InvocationAppends("acls", kafkaHome, bootstrap, PrincipalArgs(req) + ResourceArgs(req), OperationArgs(req.operations));
      InvocationAppends("acls", kafkaHome, bootstrap,
                        PrincipalArgs(req) + ResourceArgs(req) + OperationArgs(req.operations), PatternArgs(req));
    }
    cmd := Join(parts, " ");
    PrintedWords(kafkaHome, bootstrap, req);
  }

  lemma PrintedWords(kafkaHome: string, bootstrap: string, req: AclRequest)
    ensures var words := InvocationTokens("acls", kafkaHome, bootstrap, AclArgs(req));
            && SplitWords(CommandLine(words)) == Some(words) && |words| > 3
            && words[..3] == [kafkaHome + "/bin/" + "kafka-acls.sh", "--bootstrap-server", bootstrap]
            && ReadRequest(words[3..]) == Some(Meaning(req))
  {
    var words := InvocationTokens("acls", kafkaHome, bootstrap, AclArgs(req));
    QuoteSplitRoundTrip(words);
    AclScript();
    ArgsExpressRequest(req);
    assert words[3..] == AclArgs(req);
  }

  lemma InvocationAppends(verb: string, dir: string, bootstrap: string, a: seq<string>, b: seq<string>)
    ensures InvocationTokens(verb, dir, bootstrap, a) + b == InvocationTokens(verb, dir, bootstrap, a + b)
  {
    var head := [dir + "/bin/" + ScriptOf(verb), BOOTSTRAP_FLAG, bootstrap];
    assert head + a + b == head + (a + b);
  }

  lemma ShortWord(w: string)
    requires |w| != 16 && |w| != 18
    ensures !IsFlag(w)
  {
    assert |BOOTSTRAP_FLAG| == 18 && |CONFIG_FLAG| == 16;
  }

  lemma {:induction false} OperationArgsPlain(ops: seq<string>)
    requires forall op :: op in ops ==> !IsFlag(op)
    ensures forall a :: a in OperationArgs(ops) ==> !IsFlag(a)
  {
    if ops != [] {
      OperationArgsPlain(ops[..|ops| - 1]);
      ShortWord("--operation");
    }
  }

  // The literal words create_acl prints are not flags of the parser.
  lemma PermissionPlain(allow: bool)
    ensures !IsFlag(PermissionFlag(allow))
  {
    if allow {
      ShortWord("--allow-principal");
    } else {
      assert "--deny-principal"[2] == 'd' && CONFIG_FLAG[2] == 'c' && BOOTSTRAP_FLAG[2] == 'b';
    }
  }

  lemma ResourcePlain(t: ResourceType)
    ensures !IsFlag(ResourceFlag(t))
  {
    match t
    case Topic => ShortWord("--topic");
    case Group => ShortWord("--group");
    case Cluster => ShortWord("--cluster");
    case TransactionalId =>
      assert "--transactional-id"[2] == 't' && CONFIG_FLAG[2] == 'c' && BOOTSTRAP_FLAG[2] == 'b';
  }

  lemma PrincipalPlain(req: AclRequest)
    requires Normalized(req)
    ensures !IsFlag(req.principal)
  {
    assert ':' !in BOOTSTRAP_FLAG && ':' !in CONFIG_FLAG;
  }

  lemma PatternPlain(req: AclRequest)
    requires Normalized(req)
    ensures !IsFlag(req.patternType)
  {
    ShortWord(req.patternType);
  }

  lemma OperationPlain(op: string)
    requires op in {"Read", "Write", "Create", "Describe", "Alter", "Delete", "All"}
    ensures !IsFlag(op)
  {
    assert 0 < |op| && 'A' <= op[0] <= 'Z';
    assert BOOTSTRAP_FLAG[0] == '-' && CONFIG_FLAG[0] == '-';
  }

  lemma RequestWordsPlain(req: AclRequest)
    requires Normalized(req)
    ensures !IsFlag(req.principal) && !IsFlag(req.patternType)
    ensures forall op :: op in req.operations ==> !IsFlag(op)
  {
    PrincipalPlain(req);
    PatternPlain(req);
    forall op | op in req.operations ensures !IsFlag(op) {
      OperationPlain(op);
    }
  }

  /** Where the only parts of an argument list that could be flags are `x` in the middle and the last argument. */
  lemma FlagInMiddle(head: seq<string>, x: string, tail: seq<string>, last: string)
    requires forall a :: a in head + tail ==> !IsFlag(a)
    ensures FlagBeforeLast(head + [x] + tail + [last]) <==> IsFlag(x)
  {
    var all := head + [x] + tail + [last];
    assert all[|head|] == x;
    forall j | 0 <= j < |all| - 1 && j != |head| ensures !IsFlag(all[j]) {
      assert all[j] == (if j < |head| then head[j] else tail[j - |head| - 1]);
      assert all[j] in head + tail;
    }
  }

  function AclTail(req: AclRequest): seq<string> {
    OperationArgs(req.operations) + ["--resource-pattern-type"]
    + (if req.host == "*" then [] else [req.patternType, "--host"])
  }

  function AclLast(req: AclRequest): string {
    if req.host == "*" then req.patternType else req.host
  }

  lemma AclArgsShape(req: AclRequest)
    ensures AclArgs(req) == PrincipalArgs(req) + ResourceArgs(req) + AclTail(req) + [AclLast(req)]
  {
    var ops, pattern := OperationArgs(req.operations), "--resource-pattern-type";
    if req.host == "*" {
      assert PatternArgs(req) == [pattern] + [req.patternType];
      assert AclTail(req) == ops + [pattern];
    } else {
      assert PatternArgs(req) == [pattern] + [req.patternType, "--host"] + [req.host];
    }
  }

  lemma AclTailPlain(req: AclRequest)
    requires Normalized(req)
    ensures forall a :: a in AclTail(req) ==> !IsFlag(a)
  {
    RequestWordsPlain(req);
    OperationArgsPlain(req.operations);
    ShortWord("--resource-pattern-type");
    ShortWord("--host");
  }

  lemma AclHeadPlain(req: AclRequest)
    requires Normalized(req)
    ensures forall a :: a in PrincipalArgs(req) + [ResourceFlag(req.resourceType)] ==> !IsFlag(a)
  {
    RequestWordsPlain(req);
    ShortWord("--add");
    PermissionPlain(req.allow);
    ResourcePlain(req.resourceType);
  }

  lemma FlagAfterHead(head: seq<string>, flag: string, x: string, tail: seq<string>, last: string)
    requires forall a :: a in head + [flag] ==> !IsFlag(a)
    requires forall a :: a in tail ==> !IsFlag(a)
    ensures !FlagBeforeLast(head + [flag] + tail + [last])
    ensures FlagBeforeLast(head + [flag, x] + tail + [last]) <==> IsFlag(x)
  {
    assert forall a :: a in head + tail ==> a in head || a in tail;
    assert forall a :: a in head ==> a in head + [flag];
    assert flag in head + [flag];
    FlagInMiddle(head, flag, tail, last);
    assert head + [flag, x] + tail + [last] == (head + [flag]) + [x] + tail + [last];
    FlagInMiddle(head + [flag], x, tail, last);
  }

  /** A flag among the ACL arguments can only be the resource name, or the host in last place. */
  lemma AclFlagPositions(req: AclRequest)
    requires Normalized(req)
    ensures FlagBeforeLast(AclArgs(req)) <==> !req.resourceType.Cluster? && IsFlag(req.resourceName)
  {
    AclArgsShape(req);
    AclHeadPlain(req);
    AclTailPlain(req);
    FlagAfterHead(PrincipalArgs(req), ResourceFlag(req.resourceType), req.resourceName, AclTail(req), AclLast(req));
  }

  /** create_acl's command parses back into the requested arguments exactly when the broker
      address is not empty and the resource is not named like one of the two flags. */
  lemma AclRoundTrip(kafkaHome: string, bootstrap: string, req: AclRequest)
    requires Normalized(req)
    ensures var line := CommandLine(InvocationTokens("acls", kafkaHome, bootstrap, AclArgs(req)));
            SplitWords(line).Some? &&
            (ParseTokens(SplitWords(line).value)
               == Some(Invocation("acls", kafkaHome, bootstrap, AclArgs(req), None))
             <==> bootstrap != "" && (req.resourceType.Cluster? || !IsFlag(req.resourceName)))
  {
    InvocationRoundTrip("acls", kafkaHome, bootstrap, AclArgs(req));
    AclFlagPositions(req);
  }

  // ---- A resource named like a flag ----

  lemma {:induction false} ScanAcross(head: seq<string>, y: string, tail: seq<string>, acc: Args)
    requires forall a :: a in head ==> !IsFlag(a)
    ensures ScanArgs(head + [BOOTSTRAP_FLAG, y] + tail, acc)
            == ScanArgs(tail, acc.(bootstrap := y, extra := acc.extra + head))
    decreases |head|
  {
    var ts := head + [BOOTSTRAP_FLAG, y] + tail;
    if head == [] {
      assert ts[2..] == tail && acc.extra + head == acc.extra;
    } else {
      assert ts[1..] == head[1..] + [BOOTSTRAP_FLAG, y] + tail;
      assert head[0] in head && forall a :: a in head[1..] ==> a in head;
      ScanAcross(head[1..], y, tail, acc.(extra := acc.extra + [head[0]]));
      assert acc.extra + [head[0]] + head[1..] == acc.extra + head;
    }
  }

  // The arguments that follow the word "--operation" for the first time.
  function AfterOperation(req: AclRequest): seq<string>
    requires req.operations != []
  {
    OperationArgs(req.operations)[1..] + PatternArgs(req)
  }

  // What is left of the arguments of a request for a resource of that name.
  function MisreadArgs(req: AclRequest): seq<string>
    requires req.operations != []
  {
    PrincipalArgs(req) + [ResourceFlag(req.resourceType)] + AfterOperation(req)
  }

  lemma {:induction false} OperationsStart(ops: seq<string>)
    requires ops != []
    ensures OperationArgs(ops)[0] == "--operation"
  {
    if |ops| > 1 {
      OperationsStart(ops[..|ops| - 1]);
    } else {
      assert ops[..0] == [] && OperationArgs([]) == [];
    }
  }

  lemma PlainButLast(front: seq<string>, last: string)
    requires forall a :: a in front ==> !IsFlag(a)
    ensures !FlagBeforeLast(front + [last])
  {
  }

  lemma AfterOperationPlain(req: AclRequest)
    requires Normalized(req)
    ensures !FlagBeforeLast(AfterOperation(req))
  {
    AclTailPlain(req);
    AclArgsShape(req);
    PlainButLast(AclTail(req)[1..], AclLast(req));
    assert AclTail(req) + [AclLast(req)] == OperationArgs(req.operations) + PatternArgs(req);
    assert AfterOperation(req) == AclTail(req)[1..] + [AclLast(req)];
  }

  lemma NamedArgs(req: AclRequest)
    requires req.operations != [] && !req.resourceType.Cluster?
    ensures AclArgs(req) == PrincipalArgs(req) + [ResourceFlag(req.resourceType)]
                            + [req.resourceName, "--operation"] + AfterOperation(req)
  {
    OperationsStart(req.operations);
    assert OperationArgs(req.operations) == ["--operation"] + OperationArgs(req.operations)[1..];
  }

  /** An access-control entry for a resource named like the bootstrap flag is read as a
      command for other brokers: the word after the name becomes the bootstrap list. */
  lemma NamedLikeBootstrap(kafkaHome: string, bootstrap: string, req: AclRequest)
    requires Normalized(req) && !req.resourceType.Cluster? && req.resourceName == BOOTSTRAP_FLAG
    ensures ParseTokens(InvocationTokens("acls", kafkaHome, bootstrap, AclArgs(req)))
            == Some(Invocation("acls", kafkaHome, "--operation", MisreadArgs(req), None))
  {
    var head := PrincipalArgs(req) + [ResourceFlag(req.resourceType)];
    NamedArgs(req);
    AclHeadPlain(req);
    ParsedInvocation("acls", kafkaHome, bootstrap, AclArgs(req));
    AfterOperationPlain(req);
    ScanNamed(head, "--operation", AfterOperation(req), bootstrap);
  }

  lemma ScanNamed(head: seq<string>, y: string, tail: seq<string>, bootstrap: string)
    requires !FlagBeforeLast(tail) && forall a :: a in head ==> !IsFlag(a)
    ensures ScanArgs(head + [BOOTSTRAP_FLAG, y] + tail, Args(bootstrap, None, [])) == Args(y, None, head + tail)
  {
    ScanAcross(head, y, tail, Args(bootstrap, None, []));
    assert [] + head == head;
    ScanWithoutFlags(tail, Args(y, None, head));
  }
}
