/** Running a Kafka command line through the host agent instead of SSH: the backend's
    dispatch, the agent's argument checks and the argument vector it rebuilds. */
module AgentKafkaCli {
  import opened Wrappers
  import opened Text
  import opened ShellWords
  import opened KafkaInvocation
  import opened LexicalPath

  // ---- The agent's side ----

  /** Body of a kafka_cli command; an empty `commandConfig` means it was left out. */
  datatype CliArgs = CliArgs(bootstrap: string, installDir: string, args: seq<string>, commandConfig: string)

  datatype CliPlan = Rejected | Exec(argv: seq<string>)

  function KafkaScript(suffix: string): Option<string> {
    if suffix == "topics" then Some("bin/kafka-topics.sh")
    else if suffix == "configs" then Some("bin/kafka-configs.sh")
    else if suffix == "acls" then Some("bin/kafka-acls.sh")
    else if suffix == "consumer_groups" then Some("bin/kafka-consumer-groups.sh")
    else None
  }

  predicate IsAlnum(c: char) {
    'a' <= c <= 'z' || 'A' <= c <= 'Z' || '0' <= c <= '9'
  }

  predicate ValidBootstrap(b: string) {
    0 < |b| <= 1024 && forall c :: c in b ==> IsAlnum(c) || c in ".-_:,"
  }

  predicate ValidKafkaArg(a: string) {
    |a| <= 4096 && forall c :: c in a ==> IsAlnum(c) || c in ".-_/:,=@ +*?[]{}"
  }

  predicate ValidInstallDir(d: string) {
    d != "" && Clean(d) == d && "/opt/kafka" <= d
  }

  predicate ValidCommandConfig(config: string, dir: string) {
    config == "" || (Clean(config) == config && dir + "/" <= config)
  }

  /** The characters of an argument, by their codes: all but quotes, shell operators and what
      else could mean something to a shell. */
  lemma ArgIff(a: string)
    ensures ValidKafkaArg(a)
            <==> |a| <= 4096 && forall i :: 0 <= i < |a| ==>
                   var n := a[i] as int;
                   n == 32 || 42 <= n <= 58 || n == 61 || 63 <= n <= 91 || n == 93 || n == 95
                   || 97 <= n <= 123 || n == 125
  {
    forall c: char
      ensures IsAlnum(c) || c in ".-_/:,=@ +*?[]{}"
              <==> var n := c as int;
                   n == 32 || 42 <= n <= 58 || n == 61 || 63 <= n <= 91 || n == 93 || n == 95
                   || 97 <= n <= 123 || n == 125
    {
      ArgChar(c);
    }
    assert forall i :: 0 <= i < |a| ==> a[i] in a;
  }

  lemma ArgChar(c: char)
    ensures IsAlnum(c) || c in ".-_/:,=@ +*?[]{}"
            <==> var n := c as int;
                 n == 32 || 42 <= n <= 58 || n == 61 || 63 <= n <= 91 || n == 93 || n == 95
                 || 97 <= n <= 123 || n == 125
  {
  }

  lemma BootstrapChar(c: char)
    ensures IsAlnum(c) || c in ".-_:,"
            <==> var n := c as int; 44 <= n <= 46 || 48 <= n <= 58 || 65 <= n <= 90 || n == 95 || 97 <= n <= 122
  {
  }

  /** The characters of a list of brokers, which must not be empty. */
  lemma BootstrapIff(b: string)
    ensures ValidBootstrap(b)
            <==> 1 <= |b| <= 1024 && forall i :: 0 <= i < |b| ==>
                   var n := b[i] as int; 44 <= n <= 46 || 48 <= n <= 58 || 65 <= n <= 90 || n == 95 || 97 <= n <= 122
  {
    forall c: char
      ensures IsAlnum(c) || c in ".-_:,"
              <==> var n := c as int; 44 <= n <= 46 || 48 <= n <= 58 || 65 <= n <= 90 || n == 95 || 97 <= n <= 122
    {
      BootstrapChar(c);
    }
    assert forall i :: 0 <= i < |b| ==> b[i] in b;
  }

  /** An installation directory is a normal path that goes on from /opt/kafka. */
  lemma InstallDirIff(d: string)
    ensures ValidInstallDir(d) <==> NormalForm(d) && exists rest :: d == "/opt/kafka" + rest
  {
    CleanFixpoint(d);
    if "/opt/kafka" <= d {
      assert d == "/opt/kafka" + d[|"/opt/kafka"|..];
    }
  }

  /** A configuration file is accepted exactly when none is given or its path is a normal one
      strictly below the installation directory. */
  lemma CommandConfigIff(config: string, dir: string)
    requires ValidInstallDir(dir)
    ensures ValidCommandConfig(config, dir)
            <==> config == "" || exists rest :: config == dir + "/" + rest && NormalComponents(Split(rest, '/'), true)
  {
    CleanFixpoint(dir);
    InstallStart(dir);
    CleanBelowIff(config, dir);
  }

  lemma CleanBelowIff(path: string, dir: string)
    requires NormalForm(dir) && dir[0] == '/' && dir != "/"
    ensures Clean(path) == path && dir + "/" <= path
            <==> exists rest :: path == dir + "/" + rest && NormalComponents(Split(rest, '/'), true)
  {
    CleanFixpoint(path);
    if NormalForm(path) && dir + "/" <= path {
      RestBelow(path, dir, path[|dir| + 1..]);
    }
    if rest :| path == dir + "/" + rest && NormalComponents(Split(rest, '/'), true) {
      NormalBelow(dir, rest);
      StartsBelow(dir, rest);
    }
  }

  lemma RestBelow(path: string, dir: string, rest: string)
    requires NormalForm(path) && dir != "" && dir[0] == '/' && dir + "/" <= path && rest == path[|dir| + 1..]
    ensures path == dir + "/" + rest && NormalComponents(Split(rest, '/'), true)
  {
    assert path == dir + "/" + rest;
    PrefixIsBeneath(dir, rest);
  }

  lemma StartsBelow(dir: string, rest: string)
    ensures dir + "/" <= dir + "/" + rest
  {
  }

  lemma InstallStart(dir: string)
    requires "/opt/kafka" <= dir
    ensures dir[0] == '/' && dir != "/"
  {
    assert dir[0] == "/opt/kafka"[0] && |dir| >= 10;
  }

  predicate Accepts(suffix: string, a: CliArgs) {
    && KafkaScript(suffix).Some?
    && ValidBootstrap(a.bootstrap)
    && ValidInstallDir(a.installDir)
    && (forall x :: x in a.args ==> ValidKafkaArg(x))
    && ValidCommandConfig(a.commandConfig, a.installDir)
  }

  function Argv(script: string, a: CliArgs): seq<string>
    requires script != "" && a.installDir != ""
  {
    [JoinPath(a.installDir, script), BOOTSTRAP_FLAG, a.bootstrap] + a.args + ConfigTail(a.commandConfig)
  }

  /** runKafkaCLI up to the exec: a command runs exactly when every check passes. */
  method PlanKafkaCli(suffix: string, a: CliArgs) returns (plan: CliPlan)
    ensures plan.Exec? <==> Accepts(suffix, a)
    ensures plan.Exec? ==> a.installDir != "" && KafkaScript(suffix).value != ""
                           && plan.argv == Argv(KafkaScript(suffix).value, a)
  {
    var script := KafkaScript(suffix);
    if script.None? || !ValidBootstrap(a.bootstrap) || !ValidInstallDir(a.installDir) {
      return Rejected;
    }
    for i := 0 to |a.args|
      invariant forall j :: 0 <= j < i ==> ValidKafkaArg(a.args[j])
    {
      if !ValidKafkaArg(a.args[i]) {
        return Rejected;
      }
    }
    if !ValidCommandConfig(a.commandConfig, a.installDir) {
      return Rejected;
    }
    var argv := [JoinPath(a.installDir, script.value), BOOTSTRAP_FLAG, a.bootstrap];
    argv := argv + a.args;
    if a.commandConfig != "" {
      argv := argv + [CONFIG_FLAG, a.commandConfig];
    }
    return Exec(argv);
  }

  // ---- The backend's side ----

  // ^/opt/kafka[A-Za-z0-9_./-]*$ ; the final anchor also matches before one trailing newline.
  predicate InstallDirMatches(d: string) {
    HomeMatches(if EndsWith(d, "\n") then d[..|d| - 1] else d)
  }

  predicate HomeMatches(body: string) {
    "/opt/kafka" <= body && forall i :: |"/opt/kafka"| <= i < |body| ==> IsAlnum(body[i]) || body[i] in "_./-"
  }

  lemma DirChar(c: char)
    ensures IsAlnum(c) || c in "_./-"
            <==> var n := c as int; 45 <= n <= 57 || 65 <= n <= 90 || n == 95 || 97 <= n <= 122
  {
  }

  /** What the backend dispatches: /opt/kafka and letters, digits, dots, slashes, dashes and
      underscores after it, and possibly one line break at the end. */
  lemma DispatchableIff(d: string)
    ensures InstallDirMatches(d)
            <==> exists rest: string, end ::
                   d == "/opt/kafka" + rest + end && (end == "" || end == "\n") && DirText(rest)
  {
    if InstallDirMatches(d) {
      var body := if EndsWith(d, "\n") then d[..|d| - 1] else d;
      var rest, end := body[|"/opt/kafka"|..], d[|body|..];
      assert body == "/opt/kafka" + rest && d == "/opt/kafka" + rest + end;
      MatchedText(body, rest);
    }
    if rest: string, end :| d == "/opt/kafka" + rest + end && (end == "" || end == "\n") && DirText(rest) {
      DispatchableText(d, rest, end);
    }
  }

  lemma MatchedText(body: string, rest: string)
    requires HomeMatches(body) && rest == body[|"/opt/kafka"|..]
    ensures DirText(rest)
  {
    var n := |"/opt/kafka"|;
    forall i | 0 <= i < |rest| ensures DirCode(rest[i]) {
      var k := n + i;
      assert rest[i] == body[k];
      assert IsAlnum(body[k]) || body[k] in "_./-";
      DirChar(rest[i]);
    }
  }

  predicate DirCode(c: char) {
    var n := c as int; 45 <= n <= 57 || 65 <= n <= 90 || n == 95 || 97 <= n <= 122
  }

  predicate DirText(s: string) {
    forall i :: 0 <= i < |s| ==> DirCode(s[i])
  }

  lemma DispatchableText(d: string, rest: string, end: string)
    requires d == "/opt/kafka" + rest + end && (end == "" || end == "\n") && DirText(rest)
    ensures InstallDirMatches(d)
  {
    var home := "/opt/kafka";
    assert home[|home| - 1] == 'a' && (rest != "" ==> DirCode(rest[|rest| - 1]));
    assert EndsWith(d, "\n") <==> end == "\n" by {
      assert end == "" ==> d[|d| - 1] == (if rest == "" then 'a' else rest[|rest| - 1]);
    }
    var body := if EndsWith(d, "\n") then d[..|d| - 1] else d;
    assert body == home + rest;
    forall i | |home| <= i < |body| ensures IsAlnum(body[i]) || body[i] in "_./-" {
      assert body[i] == rest[i - |home|];
      DirChar(body[i]);
    }
  }

  function CliPayload(inv: Invocation): CliArgs {
    CliArgs(inv.bootstrap, inv.installDir, inv.extraArgs,
            match inv.commandConfig case None => "" case Some(c) => c)
  }

  /** What the agent answers, or the failure of the dispatch itself. */
  datatype Answer = Finished(exitCode: int, stdout: string, stderr: string) | Refused(error: string) | DispatchFailed
  datatype Ran = Ran(code: int, stdout: string, stderr: string)

  /** Which way a command goes, and the backend's view of how it ended. */
  datatype Outcome = ViaAgent(ran: Ran) | ViaSsh

  /** _run_kafka_cmd: the agent when it is connected and the command parses, else SSH. */
  method RunKafkaCmd(connected: bool, cmd: string, answer: Answer) returns (outcome: Outcome)
    ensures outcome.ViaAgent? <==>
              connected && !answer.DispatchFailed? && SplitWords(cmd).Some? &&
              ParseTokens(SplitWords(cmd).value).Some? &&
              InstallDirMatches(ParseTokens(SplitWords(cmd).value).value.installDir)
    ensures outcome.ViaAgent? && answer.Finished? ==>
              outcome.ran.code == (if answer.exitCode == 0 then 0 else 1) &&
              outcome.ran.stdout == answer.stdout && outcome.ran.stderr == answer.stderr
    ensures outcome.ViaAgent? && answer.Refused? ==> outcome.ran == Ran(1, "", answer.error)
  {
    if connected {
      var parsed := ParseInvocation(cmd);
      if parsed.Some? && InstallDirMatches(parsed.value.installDir) {
        match answer {
          case Finished(code, out, err) =>
            return ViaAgent(Ran(if code == 0 then 0 else 1, out, err));
          case Refused(e) =>
            return ViaAgent(Ran(1, "", e));
          case DispatchFailed =>
        }
      }
    }
    return ViaSsh;
  }

  // ---- Both transports run the same command ----

  /** The values the parser takes for one of its flags, in order. */
  function FlagValues(ts: seq<string>, flag: string): seq<string>
    requires IsFlag(flag)
  {
    if ts == [] then []
    else if IsFlag(ts[0]) && |ts| > 1 then
      (if ts[0] == flag then [ts[1]] else []) + FlagValues(ts[2..], flag)
    else FlagValues(ts[1..], flag)
  }

  /** The arguments the parser leaves in place. */
  function Others(ts: seq<string>): seq<string> {
    if ts == [] then []
    else if IsFlag(ts[0]) && |ts| > 1 then Others(ts[2..])
    else [ts[0]] + Others(ts[1..])
  }

  predicate Subsequence(a: seq<string>, b: seq<string>) {
    a == [] || (b != [] && ((a[0] == b[0] && Subsequence(a[1..], b[1..])) || Subsequence(a, b[1..])))
  }

  function LastOr(values: seq<string>, default: string): string {
    if values == [] then default else values[|values| - 1]
  }

  lemma {:induction false} ScanMeaning(ts: seq<string>, acc: Args)
    ensures var r := ScanArgs(ts, acc);
            && r.extra == acc.extra + Others(ts)
            && r.bootstrap == LastOr(FlagValues(ts, BOOTSTRAP_FLAG), acc.bootstrap)
            && r.config == (if FlagValues(ts, CONFIG_FLAG) == [] then acc.config
                            else Some(LastOr(FlagValues(ts, CONFIG_FLAG), "")))
    decreases |ts|
  {
    if ts == [] {
      assert acc.extra + [] == acc.extra;
    } else if ts[0] == BOOTSTRAP_FLAG && |ts| > 1 {
      ScanMeaning(ts[2..], acc.(bootstrap := ts[1]));
    } else if ts[0] == CONFIG_FLAG && |ts| > 1 {
      ScanMeaning(ts[2..], acc.(config := Some(ts[1])));
    } else {
      ScanMeaning(ts[1..], acc.(extra := acc.extra + [ts[0]]));
      assert acc.extra + [ts[0]] + Others(ts[1..]) == acc.extra + ([ts[0]] + Others(ts[1..]));
    }
  }

  /** The words the parser takes out: every flag together with its value. */
  ghost function Taken(ts: seq<string>): multiset<string> {
    if ts == [] then multiset{}
    else if IsFlag(ts[0]) && |ts| > 1 then multiset{ts[0], ts[1]} + Taken(ts[2..])
    else Taken(ts[1..])
  }

  ghost function Pairs(flag: string, values: seq<string>): multiset<string> {
    if values == [] then multiset{} else multiset{flag, values[0]} + Pairs(flag, values[1..])
  }

  lemma PairTakenOut<T>(ts: seq<T>, kept: seq<T>, taken: multiset<T>)
    requires |ts| > 1 && multiset(ts[2..]) == multiset(kept) + taken
    ensures multiset(ts) == multiset(kept) + (multiset{ts[0], ts[1]} + taken)
  {
    assert ts == [ts[0], ts[1]] + ts[2..];
    assert multiset([ts[0], ts[1]] + ts[2..]) == multiset{ts[0], ts[1]} + multiset(ts[2..]);
  }

  lemma WordKept<T>(ts: seq<T>, kept: seq<T>, taken: multiset<T>)
    requires ts != [] && multiset(ts[1..]) == multiset(kept) + taken
    ensures multiset(ts) == multiset([ts[0]] + kept) + taken
  {
    assert ts == [ts[0]] + ts[1..];
    assert multiset([ts[0]] + ts[1..]) == multiset{ts[0]} + multiset(ts[1..]);
    assert multiset([ts[0]] + kept) == multiset{ts[0]} + multiset(kept);
  }

  lemma ConserveFlag(ts: seq<string>)
    requires |ts| > 1 && IsFlag(ts[0]) && multiset(ts[2..]) == multiset(Others(ts[2..])) + Taken(ts[2..])
    ensures multiset(ts) == multiset(Others(ts)) + Taken(ts)
  {
    PairTakenOut(ts, Others(ts[2..]), Taken(ts[2..]));
  }

  lemma ConserveWord(ts: seq<string>)
    requires ts != [] && !(IsFlag(ts[0]) && |ts| > 1)
    requires multiset(ts[1..]) == multiset(Others(ts[1..])) + Taken(ts[1..])
    ensures multiset(ts) == multiset(Others(ts)) + Taken(ts)
  {
    WordKept(ts, Others(ts[1..]), Taken(ts[1..]));
  }

  /** Nothing is lost: the arguments are the others plus what was taken out. */
  lemma {:induction false} ScanConserves(ts: seq<string>)
    ensures multiset(ts) == multiset(Others(ts)) + Taken(ts)
    decreases |ts|
  {
    if ts != [] {
      if IsFlag(ts[0]) && |ts| > 1 {
        ScanConserves(ts[2..]);
        ConserveFlag(ts);
      } else {
        ScanConserves(ts[1..]);
        ConserveWord(ts);
      }
    }
  }

  lemma PairsCons(flag: string, v: string, values: seq<string>)
    ensures Pairs(flag, [v] + values) == multiset{flag, v} + Pairs(flag, values)
  {
    assert ([v] + values)[1..] == values;
  }

  lemma {:induction false} TakenPairs(ts: seq<string>)
    ensures Taken(ts) == Pairs(BOOTSTRAP_FLAG, FlagValues(ts, BOOTSTRAP_FLAG)) + Pairs(CONFIG_FLAG, FlagValues(ts, CONFIG_FLAG))
    ensures |Taken(ts)| == 2 * |FlagValues(ts, BOOTSTRAP_FLAG)| + 2 * |FlagValues(ts, CONFIG_FLAG)|
    decreases |ts|
  {
    FlagsDiffer();
    if ts != [] {
      if IsFlag(ts[0]) && |ts| > 1 {
        TakenPairs(ts[2..]);
        PairsCons(ts[0], ts[1], FlagValues(ts[2..], ts[0]));
        var other := if ts[0] == BOOTSTRAP_FLAG then CONFIG_FLAG else BOOTSTRAP_FLAG;
        assert FlagValues(ts, ts[0]) == [ts[1]] + FlagValues(ts[2..], ts[0]);
        assert FlagValues(ts, other) == FlagValues(ts[2..], other);
      } else {
        TakenPairs(ts[1..]);
      }
    }
  }

  lemma {:induction false} OthersInOrder(ts: seq<string>)
    ensures Subsequence(Others(ts), ts)
    decreases |ts|
  {
    if ts != [] {
      if IsFlag(ts[0]) && |ts| > 1 {
        OthersInOrder(ts[2..]);
        assert ts[1..][1..] == ts[2..];
        assert Subsequence(Others(ts), ts[1..]);
      } else {
        OthersInOrder(ts[1..]);
        assert Others(ts)[1..] == Others(ts[1..]);
      }
    }
  }

  lemma TopicsAndConfigsRelative()
    ensures KafkaScript("topics") == Some("bin/" + "kafka-topics.sh")
    ensures KafkaScript("configs") == Some("bin/" + "kafka-configs.sh")
  {
    assert "bin/kafka-topics.sh" == "bin/" + "kafka-topics.sh";
    assert "bin/kafka-configs.sh" == "bin/" + "kafka-configs.sh";
  }

  lemma AclsAndGroupsRelative()
    ensures KafkaScript("acls") == Some("bin/" + "kafka-acls.sh")
    ensures KafkaScript("consumer_groups") == Some("bin/" + "kafka-consumer-groups.sh")
  {
    assert "bin/kafka-acls.sh" == "bin/" + "kafka-acls.sh";
    assert "bin/kafka-consumer-groups.sh" == "bin/" + "kafka-consumer-groups.sh";
  }

  lemma ScriptRelative(verb: string, script: string)
    requires VerbOf(script) == Some(verb)
    ensures KafkaScript(verb) == Some("bin/" + script)
  {
    if script == "kafka-topics.sh" || script == "kafka-configs.sh" {
      TopicsAndConfigsRelative();
    } else {
      AclsAndGroupsRelative();
    }
  }

  lemma ScriptIsNormal(verb: string, script: string)
    requires VerbOf(script) == Some(verb)
    ensures NormalComponents(Split("bin/" + script, '/'), true)
  {
    VerbMeansScript(script);
    BinComponents(script);
    assert script[0] == 'k' by { assert "kafka-"[0] == 'k'; }
  }

  lemma BinComponents(script: string)
    requires '/' !in script
    ensures Split("bin/" + script, '/') == ["bin", script]
  {
    SplitAt("bin", '/', script);
    assert "bin" + ['/'] + script == "bin/" + script;
    FindNone(script, '/');
  }

  lemma ScriptPathParts(tokens: seq<string>, inv: Invocation) returns (script: string)
    requires tokens != [] && ParseTokens(tokens) == Some(inv)
    ensures VerbOf(script) == Some(inv.verb) && tokens[0] == inv.installDir + "/bin/" + script
  {
    var path := tokens[0];
    var bin := RFindFrom(path, "/bin/", |path|);
    assert |"/bin/"| == 5;
    script := path[bin + 5..];
    assert path[bin..bin + 5] == "/bin/";
    assert path == path[..bin] + path[bin..bin + 5] + script;
  }

  lemma InstallDirIsNormal(dir: string)
    requires ValidInstallDir(dir)
    ensures NormalForm(dir) && dir[0] == '/' && dir != "/"
  {
    CleanFixpoint(dir);
    assert "/opt/kafka"[0] == '/' && |"/opt/kafka"| == 10;
  }

  /** The program the agent runs is the one named on the command line. */
  lemma SameProgram(tokens: seq<string>, inv: Invocation)
    requires tokens != [] && ParseTokens(tokens) == Some(inv) && ValidInstallDir(inv.installDir)
    ensures KafkaScript(inv.verb).Some? && KafkaScript(inv.verb).value != ""
    ensures JoinPath(inv.installDir, KafkaScript(inv.verb).value) == tokens[0]
  {
    var script := ScriptPathParts(tokens, inv);
    ScriptRelative(inv.verb, script);
    ScriptIsNormal(inv.verb, script);
    InstallDirIsNormal(inv.installDir);
    JoinBelow(inv.installDir, "bin/" + script);
    SlashBin(inv.installDir, script);
  }

  lemma SlashBin(dir: string, script: string)
    ensures dir + "/" + ("bin/" + script) == dir + "/bin/" + script
  {
    var bin := "/bin/";
    assert bin == "/" + "bin/";
    assert dir + "/" + ("bin/" + script) == dir + ("/" + "bin/") + script;
  }

  /** What the parser reports, in terms of the flags' values. */
  lemma ParsedParts(tokens: seq<string>, inv: Invocation)
    requires tokens != [] && ParseTokens(tokens) == Some(inv)
    ensures inv.bootstrap == LastOr(FlagValues(tokens[1..], BOOTSTRAP_FLAG), "") != ""
    ensures inv.extraArgs == Others(tokens[1..])
    ensures CliPayload(inv).commandConfig == LastOr(FlagValues(tokens[1..], CONFIG_FLAG), "")
  {
    ScanMeaning(tokens[1..], Args("", None, []));
    assert [] + Others(tokens[1..]) == Others(tokens[1..]);
  }

  /** The argument vector for a command line: the program, the bootstrap list in force, the
      other arguments in order, and the configuration file in force if it is not empty. */
  function Rebuilt(tokens: seq<string>): seq<string>
    requires tokens != []
  {
    var given := tokens[1..];
    [tokens[0]] + [BOOTSTRAP_FLAG, LastOr(FlagValues(given, BOOTSTRAP_FLAG), "")] + Others(given)
    + ConfigTail(LastOr(FlagValues(given, CONFIG_FLAG), ""))
  }

  /** When the agent accepts a parsed command, its argument vector keeps the program, passes
      the last bootstrap list and configuration file given and the other arguments in order,
      and is a permutation of the command line's own tokens exactly when no flag was repeated
      or given an empty file. */
  lemma TransportsAgree(cmd: string, tokens: seq<string>, inv: Invocation)
    requires SplitWords(cmd) == Some(tokens) && tokens != [] && ParseTokens(tokens) == Some(inv)
    requires Accepts(inv.verb, CliPayload(inv))
    ensures KafkaScript(inv.verb).value != ""
    ensures var argv := Argv(KafkaScript(inv.verb).value, CliPayload(inv));
            && argv == Rebuilt(tokens)
            && Subsequence(Others(tokens[1..]), tokens[1..])
            && (multiset(argv) == multiset(tokens) <==> FlagsGivenOnce(tokens[1..]))
  {
    SameProgram(tokens, inv);
    ParsedParts(tokens, inv);
    OthersInOrder(tokens[1..]);
    ArgvShape(KafkaScript(inv.verb).value, CliPayload(inv), tokens[0]);
    PermutationIff(tokens, inv.bootstrap, CliPayload(inv).commandConfig);
  }

  lemma ArgvShape(script: string, a: CliArgs, program: string)
    requires script != "" && a.installDir != "" && JoinPath(a.installDir, script) == program
    ensures Argv(script, a) == [program] + [BOOTSTRAP_FLAG, a.bootstrap] + a.args + ConfigTail(a.commandConfig)
  {
  }

  /** The bootstrap flag appears once and the configuration flag at most once, with a non-empty value. */
  predicate FlagsGivenOnce(given: seq<string>) {
    && |FlagValues(given, BOOTSTRAP_FLAG)| == 1
    && |FlagValues(given, CONFIG_FLAG)| <= 1
    && FlagValues(given, CONFIG_FLAG) != [""]
  }

  lemma Cancel<T>(a: multiset<T>, b: multiset<T>, c: multiset<T>)
    ensures a + b == a + c <==> b == c
  {
    if a + b == a + c {
      assert forall x :: (a + b)[x] == a[x] + b[x] && (a + c)[x] == a[x] + c[x];
    }
  }

  /** Two lists that share a head and a middle are permutations of each other when the rest is. */
  lemma SharedParts<T>(x: T, mid: seq<T>, front: seq<T>, tail: seq<T>, rest: seq<T>, taken: multiset<T>)
    requires multiset(rest) == multiset(mid) + taken
    ensures multiset([x] + front + mid + tail) == multiset([x] + rest) <==> multiset(front) + multiset(tail) == taken
  {
    var kept := multiset{x} + multiset(mid);
    assert multiset([x] + rest) == multiset{x} + multiset(rest) == kept + taken;
    assert multiset([x] + front + mid + tail) == kept + (multiset(front) + multiset(tail));
    Cancel(kept, multiset(front) + multiset(tail), taken);
  }

  lemma PermutationIff(tokens: seq<string>, bootstrap: string, config: string)
    requires tokens != [] && bootstrap != ""
    requires bootstrap == LastOr(FlagValues(tokens[1..], BOOTSTRAP_FLAG), "")
    requires config == LastOr(FlagValues(tokens[1..], CONFIG_FLAG), "")
    ensures multiset([tokens[0]] + [BOOTSTRAP_FLAG, bootstrap] + Others(tokens[1..]) + ConfigTail(config)) == multiset(tokens)
            <==> FlagsGivenOnce(tokens[1..])
  {
    var given := tokens[1..];
    ScanConserves(given);
    assert tokens == [tokens[0]] + given;
    SharedParts(tokens[0], Others(given), [BOOTSTRAP_FLAG, bootstrap], ConfigTail(config), given, Taken(given));
    TakenIff(given, bootstrap, config);
  }

  function ConfigTail(config: string): seq<string> {
    if config == "" then [] else [CONFIG_FLAG, config]
  }

  lemma TwoWords<T>(a: T, b: T)
    ensures multiset([a, b]) == multiset{a, b} && |multiset([a, b])| == 2
  {
  }

  lemma GivenOnceTaken(given: seq<string>, bootstrap: string, config: string)
    requires FlagsGivenOnce(given)
    requires bootstrap == LastOr(FlagValues(given, BOOTSTRAP_FLAG), "")
    requires config == LastOr(FlagValues(given, CONFIG_FLAG), "")
    ensures multiset([BOOTSTRAP_FLAG, bootstrap]) + multiset(ConfigTail(config)) == Taken(given)
  {
    TakenPairs(given);
    BootstrapTaken(FlagValues(given, BOOTSTRAP_FLAG), bootstrap);
    ConfigTaken(FlagValues(given, CONFIG_FLAG), config);
  }

  lemma BootstrapTaken(bs: seq<string>, bootstrap: string)
    requires |bs| == 1 && bootstrap == LastOr(bs, "")
    ensures multiset([BOOTSTRAP_FLAG, bootstrap]) == Pairs(BOOTSTRAP_FLAG, bs)
  {
    OnePair(BOOTSTRAP_FLAG, bs);
  }

  lemma ConfigTaken(cs: seq<string>, config: string)
    requires |cs| <= 1 && cs != [""] && config == LastOr(cs, "")
    ensures multiset(ConfigTail(config)) == Pairs(CONFIG_FLAG, cs)
  {
    if |cs| == 1 {
      OnePair(CONFIG_FLAG, cs);
      assert cs == [config];
    }
  }

  lemma OnePair(flag: string, values: seq<string>)
    requires |values| == 1
    ensures Pairs(flag, values) == multiset([flag, values[0]])
  {
    TwoWords(flag, values[0]);
    PairsCons(flag, values[0], []);
    assert values == [values[0]] + [];
  }

  lemma TakenIff(given: seq<string>, bootstrap: string, config: string)
    requires bootstrap != ""
    requires bootstrap == LastOr(FlagValues(given, BOOTSTRAP_FLAG), "")
    requires config == LastOr(FlagValues(given, CONFIG_FLAG), "")
    ensures (multiset([BOOTSTRAP_FLAG, bootstrap]) + multiset(ConfigTail(config)) == Taken(given)) <==> FlagsGivenOnce(given)
  {
    if FlagsGivenOnce(given) {
      GivenOnceTaken(given, bootstrap, config);
    } else {
      // Then the two sides differ in size.
      var cs := FlagValues(given, CONFIG_FLAG);
      TakenPairs(given);
      TwoWords(BOOTSTRAP_FLAG, bootstrap);
      TwoWords(CONFIG_FLAG, config);
      assert |cs| == 1 ==> cs == [config];
    }
  }

  lemma {:induction false} ValuesAcross(head: seq<string>, y: string, tail: seq<string>)
    requires forall a :: a in head ==> !IsFlag(a)
    ensures FlagValues(head + [BOOTSTRAP_FLAG, y] + tail, BOOTSTRAP_FLAG) == [y] + FlagValues(tail, BOOTSTRAP_FLAG)
    decreases |head|
  {
    var ts := head + [BOOTSTRAP_FLAG, y] + tail;
    if head == [] {
      assert ts[2..] == tail;
    } else {
      assert head[0] in head && forall a :: a in head[1..] ==> a in head;
      assert ts[1..] == head[1..] + [BOOTSTRAP_FLAG, y] + tail;
      ValuesAcross(head[1..], y, tail);
    }
  }

  // ---- Access-control commands from end to end ----

  /** For an access-control request whose command the agent accepts, the agent executes
      exactly the requested words, in their order, if and only if the bootstrap list is not
      empty and the resource is not named like a flag. */
  lemma AclThroughAgent(home: string, bootstrap: string, req: AclRequest, inv: Invocation)
    requires Normalized(req)
    requires ParseTokens(InvocationTokens("acls", home, bootstrap, AclArgs(req))) == Some(inv)
    requires Accepts(inv.verb, CliPayload(inv))
    ensures KafkaScript(inv.verb).value != ""
    ensures Argv(KafkaScript(inv.verb).value, CliPayload(inv)) == InvocationTokens("acls", home, bootstrap, AclArgs(req))
            <==> bootstrap != "" && (req.resourceType.Cluster? || !IsFlag(req.resourceName))
  {
    var tokens, args := InvocationTokens("acls", home, bootstrap, AclArgs(req)), AclArgs(req);
    SameProgram(tokens, inv);
    ArgvShape(KafkaScript(inv.verb).value, CliPayload(inv), tokens[0]);
    AclRoundTrip(home, bootstrap, req);
    QuoteSplitRoundTrip(tokens);
    ParsedInvocation("acls", home, bootstrap, args);
    if bootstrap != "" && (req.resourceType.Cluster? || !IsFlag(req.resourceName)) {
      assert inv == Invocation("acls", home, bootstrap, args, None);
    } else {
      SameWords(tokens[0], bootstrap, args, CliPayload(inv));
      if bootstrap != "" {
        AclFlagPositions(req);
        ScanLosesFlags(args, Args(bootstrap, None, []));
        AclEndsPlain(req);
      }
    }
  }

  // What equal argument vectors would mean for the parts.
  lemma SameWords(program: string, bootstrap: string, args: seq<string>, a: CliArgs)
    ensures [program] + [BOOTSTRAP_FLAG, a.bootstrap] + a.args + ConfigTail(a.commandConfig)
              == [program, BOOTSTRAP_FLAG, bootstrap] + args
            ==> a.bootstrap == bootstrap
                && (|a.args| < |args| ==> |args| >= 2 && args[|args| - 2] == CONFIG_FLAG)
  {
    var ours := [program] + [BOOTSTRAP_FLAG, a.bootstrap] + a.args + ConfigTail(a.commandConfig);
    var theirs := [program, BOOTSTRAP_FLAG, bootstrap] + args;
    if ours == theirs {
      assert ours[2] == a.bootstrap && theirs[2] == bootstrap;
      assert ours[3..] == a.args + ConfigTail(a.commandConfig) && theirs[3..] == args;
    }
  }

  lemma AclEndsPlain(req: AclRequest)
    requires Normalized(req)
    ensures |AclArgs(req)| >= 2 && AclArgs(req)[|AclArgs(req)| - 2] != CONFIG_FLAG
  {
    var tail := AclTail(req);
    AclArgsShape(req);
    AclTailPlain(req);
    assert tail[|tail| - 1] in tail;
    assert AclArgs(req)[|AclArgs(req)| - 2] == tail[|tail| - 1];
  }

  // ---- One command on which the transports differ ----

  /** Read access to a topic named like the bootstrap flag. */
  function MisreadRequest(): AclRequest {
    AclRequest("User:a", Topic, BOOTSTRAP_FLAG, "literal", ["Read"], true, "*")
  }

  lemma MisreadWords()
    ensures MisreadArgs(MisreadRequest())
            == ["--add", "--allow-principal", "User:a", "--topic", "Read", "--resource-pattern-type", "literal"]
  {
    var ops := MisreadRequest().operations;
    assert ops[..0] == [] && OperationArgs(ops) == [] + ["--operation", "Read"];
    assert OperationArgs(ops)[1..] == ["Read"];
  }

  lemma ValidWords()
    ensures ValidKafkaArg("--add") && ValidKafkaArg("--allow-principal") && ValidKafkaArg("User:a")
    ensures ValidKafkaArg("--topic") && ValidKafkaArg("Read") && ValidKafkaArg("literal")
  {
  }

  lemma ValidPatternWord()
    ensures ValidKafkaArg("--resource-pattern-type") && ValidBootstrap("--operation")
  {
  }

  lemma HomeComponents(home: string)
    requires home == "/opt/kafka"
    ensures Split(home[1..], '/') == ["opt", "kafka"]
  {
    assert home[1..] == "opt" + ['/'] + "kafka";
    SplitAt("opt", '/', "kafka");
    FindNone("kafka", '/');
  }

  lemma TwoComponents(a: string, b: string)
    requires a != "" && b != "" && a[0] != '.' && b[0] != '.' && '/' !in a && '/' !in b
    ensures NormalComponents([a, b], true)
  {
    assert a != "." && a != ".." && b != "." && b != "..";
  }

  lemma ValidHome()
    ensures ValidInstallDir("/opt/kafka")
  {
    HomeComponents("/opt/kafka");
    TwoComponents("opt", "kafka");
    CleanFixpoint("/opt/kafka");
  }

  lemma MisreadIsNormalized()
    ensures Normalized(MisreadRequest())
  {
    assert "User:a"[4] == ':';
  }

  lemma AllValid(a: string, b: string, c: string, d: string, e: string, f: string, g: string)
    requires ValidKafkaArg(a) && ValidKafkaArg(b) && ValidKafkaArg(c) && ValidKafkaArg(d)
    requires ValidKafkaArg(e) && ValidKafkaArg(f) && ValidKafkaArg(g)
    ensures forall x :: x in [a, b, c, d, e, f, g] ==> ValidKafkaArg(x)
  {
  }

  lemma MisreadArgsValid()
    ensures forall x :: x in MisreadArgs(MisreadRequest()) ==> ValidKafkaArg(x)
  {
    MisreadWords();
    ValidWords();
    ValidPatternWord();
    AllValid("--add", "--allow-principal", "User:a", "--topic", "Read", "--resource-pattern-type", "literal");
  }

  lemma MisreadIsAccepted(inv: Invocation)
    requires inv == Invocation("acls", "/opt/kafka", "--operation", MisreadArgs(MisreadRequest()), None)
    ensures Accepts(inv.verb, CliPayload(inv))
  {
    ValidHome();
    MisreadArgsValid();
    ValidPatternWord();
    AcceptedWithout(inv);
  }

  lemma AcceptedWithout(inv: Invocation)
    requires inv.verb == "acls" && inv.commandConfig == None
    requires ValidBootstrap(inv.bootstrap) && ValidInstallDir(inv.installDir)
    requires forall x :: x in inv.extraArgs ==> ValidKafkaArg(x)
    ensures Accepts(inv.verb, CliPayload(inv))
  {
  }

  lemma MisreadRepeatsFlag(bootstrap: string)
    ensures !FlagsGivenOnce(InvocationTokens("acls", "/opt/kafka", bootstrap, AclArgs(MisreadRequest()))[1..])
  {
    var req := MisreadRequest();
    var head := PrincipalArgs(req) + [ResourceFlag(req.resourceType)];
    MisreadIsNormalized();
    NamedArgs(req);
    AclHeadPlain(req);
    ValuesAcross(head, "--operation", AfterOperation(req));
    ValuesAcross([], bootstrap, AclArgs(req));
    assert InvocationTokens("acls", "/opt/kafka", bootstrap, AclArgs(req))[1..]
           == [] + [BOOTSTRAP_FLAG, bootstrap] + AclArgs(req);
  }

  /** The command for that request parses, with the word "--operation" as its bootstrap list;
      the agent accepts it, and executes words that are no permutation of the command line. */
  lemma RepeatedFlagDiffers(bootstrap: string)
    ensures Normalized(MisreadRequest())
    ensures var tokens := InvocationTokens("acls", "/opt/kafka", bootstrap, AclArgs(MisreadRequest()));
            && SplitWords(CommandLine(tokens)) == Some(tokens)
            && ParseTokens(tokens).Some? && ParseTokens(tokens).value.bootstrap == "--operation"
            && var inv := ParseTokens(tokens).value;
               && Accepts(inv.verb, CliPayload(inv))
               && KafkaScript(inv.verb).value != ""
               && multiset(Argv(KafkaScript(inv.verb).value, CliPayload(inv))) != multiset(tokens)
  {
    var tokens := InvocationTokens("acls", "/opt/kafka", bootstrap, AclArgs(MisreadRequest()));
    MisreadIsNormalized();
    QuoteSplitRoundTrip(tokens);
    NamedLikeBootstrap("/opt/kafka", bootstrap, MisreadRequest());
    var inv := ParseTokens(tokens).value;
    MisreadIsAccepted(inv);
    TransportsAgree(CommandLine(tokens), tokens, inv);
    MisreadRepeatsFlag(bootstrap);
  }
}
