# Tantor: a verified model of its protocols, parsers and bookkeeping

Tantor manages Kafka clusters from a Python backend, through SSH or through a Go agent on each
host. This project models the parts of both that decide something on their own - the command
protocol and the identities of the agents, the command lines and file edits the backend produces,
the parsers of Kafka's output, the forecast, the logs and the cluster states - and proves what
they promise.

`dafny verify dfyconfig.toml` checks everything.

## What is here

| module | models |
|---|---|
| `AgentCommands` | how the agent runs programs and dispatches commands, and one connection between backend and agent: correlation ids, concurrent handlers, replies in any order, timeouts, losses |
| `AgentRegistry` | the two tables of connected agents through connects, disconnects and cleanups |
| `AgentIdentity` | one-shot registration tokens, signed tokens with a version, mint, revoke and connect |
| `ShellWords`, `KafkaInvocation` | quoting, splitting and parsing of Kafka command lines, and the ACL command |
| `LexicalPath`, `AgentKafkaCli` | the agent's path cleaning, its argument checks, and the command it rebuilds |
| `Glob`, `Allowlist` | glob matching with the Go library's search, the agent's operation allowlist and the guards of its file operations |
| `BrokerConfig`, `ConfigAudit` | the `server.properties` parser and line editor; updates, rollbacks and bulk changes with their audit log |
| `Decimal`, `TopicDescribe`, `DescribeFormat` | the two describe parsers and the format they read |
| `PartitionDistribution`, `DistributionFormat`, `Sorting` | the counts per broker and topic, and what they are for that format |
| `PrometheusSeries`, `CapacityForecast` | the merged usage series, the least-squares line, the projection and the time it reaches the threshold |
| `DeploymentLog`, `StreamPolling` | the two bounded deployment logs; the polled ksqlDB stream |
| `ClusterLifecycle` | start, stop, status polls, state synchronisation and the guards of node removal |
| `Text`, `Wrappers` | strip, split, join, lines; optional results |

Code that changes state step by step is modelled by classes and loops, each proved equal to a
function of the old state; the theorems over runs are about those functions. A run is a list of
actions, and an action that is not possible in a state leaves it unchanged, so every theorem about
runs is about every interleaving.

Several promises do not hold on every input. For each of these the exact condition is proved, with
a concrete input where the promise fails:

- An edit of `server.properties` takes effect unless a later line assigns the same key in a
  spelling the editor does not look for, such as a tab before the equals sign
  (`EditRefinesUpdateIff`; fails in `ShadowedEdit`). The audit log is exact for the same keys
  (`KeyHistoryIff`).
- A printed Kafka command parses back unless an argument before the last is spelled like
  `--bootstrap-server` or `--command-config`, or the bootstrap list is empty
  (`InvocationRoundTrip`, `InvocationWithConfigRoundTrip`, `AclRoundTrip`; fails for a topic named
  `--bootstrap-server` in `NamedLikeBootstrap`).
- The agent's argument list is a permutation of the command line unless a flag is repeated or the
  configuration file is empty text (`TransportsAgree`, and `AclThroughAgent` for ACL requests;
  fails in `RepeatedFlagDiffers`, an ACL command the agent accepts).
- A client that stops at the first poll reporting the end has every row unless one was appended
  between a slice and its offset update, or after the last offset update
  (`PrefixIffNoAppendInWindow`, `DoneClientIff`; fails in `LostRow` and `StoppedTooEarly`).
- A topic listing reads back unless a partition has no leader, no replica or no in-sync replica, or
  a configuration key or value holds a comma (`DescribeRoundTrip`, `OneTopicReads`). In the first
  case the parser raises, and one such partition fails the listing of every topic
  (`OfflineFailsListing`); in the second it cuts the text at the comma, and of
  `cleanup.policy=compact,delete` it keeps `compact` without raising (`SecondPolicyDropped`).
- The distribution reads a printed list as it is unless a partition is not placed, and then it fails,
  or a header holds the text `Partition:`, and then it counts a partition too many
  (`RecordsRoundTrip`; fails in `HeaderCounted`).
- Rolling back an update restores the file unless the key was new; then the rollback is refused
  (`UpdateThenRollback`, and `UnwindRestoresIff` for whole histories; fails in
  `NewKeyIsNotRolledBack`).
- Adding a node to a running cluster keeps the state honest unless the node is a core service that
  is not running yet; then the state says `running` until the next status poll
  (`AddKeepsHonestIff`, `PollMakesHonest`; fails in `PendingBrokerAdded`).

Where the code and what is written about it differ, the model follows the code:

- backend/app/services/agent_registry.py:147-148 says that only the active session is removed. The
  code compares agent ids, so a superseded session takes its replacement out of the registry
  (`RemovalMeetsCommentIff`, `ReconnectEndsDisconnected`).
- agent/internal/exec/exec.go:24 says that a timeout is returned when the deadline is reached. The
  code looks at the exit state first, so a program killed at its deadline is a result with exit code
  -1, and so is one that cannot be started before it; a timeout is reported if and only if the
  deadline has passed and the program left no exit state (`ReportIff`, `KilledAtDeadline`).
- The allowlist entry `file.read:/opt/kafka-*/config/` (agent/installer/install.sh:104,
  backend/app/api/agents.py:72) is meant as a glob. A pattern with a trailing slash is compared
  literally, so it covers no broker's directory. Such a pattern grants what its glob reading
  covers if and only if it holds no glob character (`DirectoryGlobIff`, `StarredDirectory`,
  `ShippedDirectoryGlobDenies`).
- The file guards report that a path must be absolute (agent/internal/ops/file.go:54). They accept
  relative normal paths: with a bare entry a relative file is read (`RelativeRead`), and with
  directory patterns a relative path is reached if and only if the operation is listed bare or
  one of the directories is itself relative (`RelativeReachedIff`). With rooted patterns only,
  every path reached is absolute (`ReachedPathIsCovered`).
- The fourth removal guard (backend/app/api/clusters.py:622) repeats the first under a further
  condition and never decides anything (`RemovedIff`).

Quoting and splitting of command lines follow section 2.2 (Quoting) of the POSIX.1-2017 Shell
Command Language as far as the backend's quoting and splitting functions use it.

## Model

| member | source | states |
|---|---|---|
| AgentCommands.ReportIff | agent/internal/exec/exec.go:34-84 | what becomes of a program, through exec.Run and runResult: a timeout is reported if and only if its deadline has passed and it left no exit state, a failure to execute if and only if there is nothing to run, and otherwise its exit code, -1 for one that was killed or could not be started |
| AgentCommands.KilledAtDeadline | agent/internal/exec/exec.go:56-68 | a program killed at its deadline is reported as a result with exit code -1, not as a timeout |
| AgentCommands.RunResultIsExclusive | agent/internal/ops/dispatch.go:97-119 | what exec.Run returns becomes a result or an error, never both or neither; its timeout error is always an error and any exit code a result |
| AgentCommands.Handle | agent/internal/ops/dispatch.go:43-80 | every command, decoded or not, permitted or not, known or not, refused or run, is answered with exactly one of result and error, and a result only comes from one that was permitted and not refused |
| AgentCommands.ResultIff | agent/internal/ops/dispatch.go:41-119 | a command gets a result if and only if it is decoded, permitted, starts with `systemctl.`, `journalctl.`, `kafka_cli.`, `file.` or `exec.`, is not refused by its branch, and its program did not pass its deadline without leaving an exit state; one that is not permitted is denied, one that cannot be decoded has bad arguments, and a refusal is passed on |
| AgentCommands.KnownAnswer | agent/internal/ops/dispatch.go:59-80 | a permitted command with one of these prefixes that is not refused is answered with exactly the exit code and output of its program, or the timeout |
| AgentCommands.UnknownAnswer | agent/internal/ops/dispatch.go:74-79 | a permitted command with none of the prefixes is answered with the unknown-op error, whatever it would run |
| AgentCommands.Branches | agent/internal/ops/dispatch.go:59-80 | every operation takes the branch of its prefix, downloads and scripts their own |
| AgentCommands.AgentSession.BeginCmd | backend/app/services/agent_registry.py:87-88 | a fresh id is registered as waiting before anything is sent, and nothing else changes |
| AgentCommands.AgentSession.Deliver | backend/app/services/agent_registry.py:107-122 | returns true exactly for a result or error frame whose reference is still waiting, completes that entry with the frame's payload, and otherwise changes nothing |
| AgentCommands.AgentSession.EndCmd | backend/app/services/agent_registry.py:99-105 | the caller gets the completed reply or the timeout, and the entry is gone whatever happened |
| AgentCommands.OnlyAwaitedRepliesCount | backend/app/services/agent_registry.py:107-122 | a frame changes the table if and only if it answers a waiting command; delivering it again changes nothing |
| AgentCommands.CorrelationSafety | backend/app/services/agent_registry.py:74-122 | in every interleaving a completed command returns exactly the reply the agent produced for the frame with that id, that frame carried the command asked for, and the reply is the dispatcher's answer to it |
| AgentCommands.ReturnedIff | backend/app/services/agent_registry.py:74-122 | in every interleaving a completed command has returned `ok` if and only if the agent permitted it, it has a known prefix, was not refused, and its program did not miss its deadline; the result of a program that succeeded is its output |
| AgentCommands.RaisedIffUnsent | backend/app/services/agent_registry.py:89-105 | in every interleaving a call has raised if and only if its command was never sent; a sent one has timed out or returned the agent's reply |
| AgentCommands.UnknownNeverSucceeds | agent/internal/ops/dispatch.go:58-79 | in every interleaving a command whose operation has none of the known prefixes never returns a result |
| AgentCommands.PendingIsUnfinished | backend/app/services/agent_registry.py:84-105 | in every reachable state the pending table holds exactly the commands asked for and not yet ended |
| AgentCommands.SettledStaysSettled | backend/app/services/agent_registry.py:112-119 | over any continuation a settled future keeps its value until its call returns it, outcomes never change, and the agent answers a command once |
| AgentCommands.CommandCanComplete | agent/internal/ws/client.go:306-360 | from every reachable state a command frame under way can still complete its call with whatever the dispatcher makes of it |
| AgentCommands.KnownCanSucceed | agent/internal/ws/client.go:306-360 | in particular one with a known prefix can return the exit code zero and the output of its program |
| AgentCommands.CommandCanTimeOut | backend/app/services/agent_registry.py:99-105 | from every reachable state a sent command that still waits can end in a timeout |
| AgentRegistry.Registry.Register | backend/app/services/agent_registry.py:136-143 | both tables point to the new session and the replaced session of the host is returned |
| AgentRegistry.Registry.Remove | backend/app/services/agent_registry.py:145-152 | the host's entry goes if it has the session's agent id, the agent's entry always |
| AgentRegistry.Registry.RemoveForSocket | backend/app/services/agent_registry.py:154-169 | removes a session found on the socket, or nothing when there is none |
| AgentRegistry.RunKeepsLockstep | backend/app/services/agent_registry.py:136-169 | with agents and hosts in one-to-one correspondence, after any run the two tables hold the same sessions under matching keys |
| AgentRegistry.RegistryMatchesRun | backend/app/services/agent_registry.py:136-169 | after any such run a host's entry is what its own connects, disconnects and cleanups say; hosts do not interfere |
| AgentRegistry.RemovalMeetsCommentIff | backend/app/services/agent_registry.py:145-152 | removal does what its comment says if and only if no other session has taken the host over |
| AgentRegistry.ReconnectEndsDisconnected | backend/app/services/agent_registry.py:145-169 | after a reconnect, closing the replaced session leaves the host disconnected although its new session is open |
| AgentIdentity.AgentTable.Mint | backend/app/api/agents.py:95-121 | for a known host the row gets the new token, pending for 3600 seconds, becomes active and its version goes up by one; an unknown host changes nothing |
| AgentIdentity.AgentTable.Revoke | backend/app/api/agents.py:148-160 | the row loses its pending token, becomes inactive and its version goes up by one |
| AgentIdentity.AgentTable.Authenticate | backend/app/api/agents.py:685-749 | returns a host that the bearer is acceptable for, and none only if it is acceptable for no host |
| AgentIdentity.AgentTable.Connect | backend/app/api/agents.py:581-605 | on acceptance the pending token is cleared, whichever way the agent came in, and a token for the row's current version is issued; on failure nothing changes |
| AgentIdentity.TokenUsedOnce | backend/app/api/agents.py:597-601 | in every run a registration token authenticates at most once |
| AgentIdentity.TokenBelongsToHost | backend/app/api/agents.py:690-727 | an accepted registration token is one minted for the host it authenticates, and that agent is active |
| AgentIdentity.PendingBlocksJwts | backend/app/api/agents.py:113-119 | while a token is pending its agent is active and no signed token ever issued for the host is accepted |
| AgentIdentity.VersionsNeverDecrease | backend/app/api/agents.py:95-160 | over any continuation of any run versions never go down and history is only added to |
| AgentIdentity.RetiredJwtNeverAccepted | backend/app/api/agents.py:117-119 | a signed token issued before a mint or a revocation for its host is never accepted again, however the run goes on |
| AgentIdentity.RetiredTokenNeverAccepted | backend/app/api/agents.py:113-160 | nor is a registration token of that host |
| AgentIdentity.IssuedJwtAcceptedIff | backend/app/api/agents.py:729-749 | from its issue on, a signed token is accepted if and only if it has not expired and its host was neither minted for nor revoked since |
| AgentIdentity.MintedTokenAcceptedIff | backend/app/api/agents.py:690-727 | after any run, from its mint on and over any continuation, a registration token authenticates a host if and only if it is the one minted for, hinted or not hinted at all, within 3600 seconds, and no mint, revocation or connect of that host has taken effect since |
| AgentIdentity.MintThenConnectIff | backend/app/api/agents.py:581-605 | a connect with the token right after its mint goes through if and only if it comes within the 3600 seconds and under no other host's name, and afterwards the token is never accepted |
| AgentIdentity.MintThenConnect | backend/app/api/agents.py:95-121 | the same for the operations on any table: the connect issues a token for the row's new version for 365 days, and a second one fails |
| AgentIdentity.ActiveIff | backend/app/api/agents.py:95-160 | in every run an agent is active if and only if the last mint or revocation of its host was a mint |
| AgentIdentity.InactiveIsClosed | backend/app/api/agents.py:694-700 | an inactive agent is let in by nothing but a token still pending for it, under its own name |
| AgentIdentity.AcceptedWasGiven | backend/app/api/agents.py:685-749 | in every run nothing but a registration token minted for the host or an unexpired token issued for its current version authenticates as it |
| ShellWords.SplitCommand | backend/app/services/kafka_admin.py:158-161 | the character loop with its states computes the word list of a command line, or fails on an open quote or escape |
| ShellWords.QuoteSplitRoundTrip | backend/app/services/kafka_admin.py:1267-1291 | quoting any list of words, joining with blanks and splitting gives the list back, for all strings |
| ShellWords.WrittenWordsSplit | backend/app/services/kafka_admin.py:158-161 | words written plain, between single or double quotes, escaped, or in any mixture, with any blanks between them, split into what they mean |
| ShellWords.OpenEndFails | backend/app/services/kafka_admin.py:158-161 | a quote never closed or a backslash at the end fails the split, whatever stands before it |
| ShellWords.CommandLineInjective | backend/app/services/kafka_admin.py:1267-1291 | different word lists print as different command lines |
| KafkaInvocation.ParseInvocation | backend/app/services/kafka_admin.py:148-202 | the index walk over the tokens yields the verb, directory, last bootstrap list, last configuration file and remaining arguments, or fails as the checks say |
| KafkaInvocation.InvocationRoundTrip | backend/app/services/kafka_admin.py:148-202 | a printed invocation parses back into the same verb, directory, bootstrap list and arguments if and only if the bootstrap list is not empty and no argument but the last is one of the two flags |
| KafkaInvocation.InvocationWithConfigRoundTrip | backend/app/services/kafka_admin.py:193-197 | a printed invocation with a trailing configuration file parses back with that file if and only if the bootstrap list is not empty and no argument is one of the two flags, or only the last one is and both it and the file's name are `--command-config` |
| KafkaInvocation.AclCommand | backend/app/services/kafka_admin.py:1267-1291 | the joined pieces are a command line whose words are the script, `--bootstrap-server`, the brokers, and options that express exactly the request, for every request |
| KafkaInvocation.ArgsExpressRequest | backend/app/services/kafka_admin.py:1250-1289 | a reader of the options `--add`, `--allow-principal`, `--deny-principal`, `--topic`, `--group`, `--cluster`, `--transactional-id`, `--operation`, `--resource-pattern-type` and `--host` gets exactly the request back from the arguments, a cluster resource without its name |
| KafkaInvocation.DifferentRequestsDiffer | backend/app/services/kafka_admin.py:1265-1291 | requests that ask for different things, or for different brokers or installations, are printed as different commands |
| KafkaInvocation.InvocationWords | backend/app/services/kafka_admin.py:173-178 | the four verbs in words: their scripts and the two flags |
| KafkaInvocation.AclFlagPositions | backend/app/services/kafka_admin.py:1265-1289 | only the resource name or the host in last place can be spelled like a flag of the parser |
| KafkaInvocation.AclRoundTrip | backend/app/services/kafka_admin.py:1267-1292 | the ACL command parses back into its arguments if and only if the bootstrap list is not empty and the resource is not named like one of the two flags |
| KafkaInvocation.NamedLikeBootstrap | backend/app/services/kafka_admin.py:1265-1292 | every request for a resource named `--bootstrap-server`, with any operations, is misread: the parsed bootstrap list is the next word of the command, `--operation` |
| LexicalPath.CleanFixpoint | agent/internal/ops/file.go:52-55 | the paths cleaning leaves alone are exactly the lexical normal forms |
| LexicalPath.CleanIdempotent | agent/internal/ops/kafka_cli.go:105-108 | cleaning twice is cleaning once |
| LexicalPath.CleanDrops | agent/internal/ops/kafka_cli.go:105-108 | cleaning drops empty components and single dots, wherever they stand behind a slash |
| LexicalPath.CleanTakesBack | agent/internal/ops/kafka_cli.go:105-108 | two dots take back the component before them |
| LexicalPath.CleanStaysAtRoot | agent/internal/ops/kafka_cli.go:105-108 | at the root two dots are dropped |
| LexicalPath.CleanEnds | agent/internal/ops/kafka_cli.go:105-108 | a slash at the end makes no difference |
| LexicalPath.PrefixIsBeneath | agent/internal/ops/allowlist.go:57-62 | a normal path that starts with a rooted directory and its slash lies beneath that directory, which is itself normal |
| AgentKafkaCli.PlanKafkaCli | agent/internal/ops/kafka_cli.go:88-130 | a command is executed if and only if verb, bootstrap list, directory, arguments and configuration path pass their checks, with the rebuilt argument list |
| AgentKafkaCli.ArgIff | agent/internal/ops/kafka_cli.go:65-86 | exactly the words of up to 4096 characters out of letters, digits, blank and `.-_/:,=@+*?[]{}` are arguments, by character code |
| AgentKafkaCli.BootstrapIff | agent/internal/ops/kafka_cli.go:35-59 | exactly the non-empty words of up to 1024 characters out of letters, digits and `.-_:,` are broker lists |
| AgentKafkaCli.InstallDirIff | agent/internal/ops/kafka_cli.go:105-108 | exactly the normal paths that start with `/opt/kafka` are installation directories |
| AgentKafkaCli.CommandConfigIff | agent/internal/ops/kafka_cli.go:114-119 | a configuration file is accepted if and only if it is empty text or a normal path strictly below the installation directory |
| AgentKafkaCli.DispatchableIff | backend/app/services/agent_transport.py:313-314 | exactly `/opt/kafka` followed by letters, digits and `_./-`, and possibly one line break, is dispatched to the agent |
| AgentKafkaCli.RunKafkaCmd | backend/app/services/kafka_admin.py:117-145 | a command goes through the agent if and only if the agent is connected, the command parses, its directory is dispatchable and the dispatch works; the code is zero for the exit code zero and one for any other and for refusals, and output and error text are passed on |
| AgentKafkaCli.ScanConserves | backend/app/services/kafka_admin.py:186-198 | the arguments are the remaining ones plus the flags with their values: nothing is lost or doubled |
| AgentKafkaCli.SameProgram | agent/internal/ops/kafka_cli.go:120 | the program the agent executes is the one named on the command line |
| AgentKafkaCli.TransportsAgree | agent/internal/ops/kafka_cli.go:88-130 | an accepted command's argument list is its program, the last bootstrap list, the last configuration file and the other words in order; it is a permutation of the command line if and only if no flag was repeated or given an empty file |
| AgentKafkaCli.AclThroughAgent | agent/internal/ops/kafka_cli.go:117-130 | for an ACL request the agent accepts, the argument list it executes is the requested command word for word if and only if the bootstrap list is not empty and the resource is not named like a flag |
| AgentKafkaCli.RepeatedFlagDiffers | backend/app/services/kafka_admin.py:186-202 | an ACL command, for a topic named `--bootstrap-server`, that parses and that the agent accepts, with `--operation` for its bootstrap list, and whose argument list is not a permutation of the command line |
| Glob.MatchIsComponentwise | agent/internal/ops/allowlist.go:63-66 | a pattern whose classes leave out the separator matches a path if and only if they have equally many components and each matches; a star never crosses a separator |
| Glob.DepthIsFixedIff | agent/internal/ops/allowlist.go:63-66 | every match has exactly the pattern's separators if and only if no class contains the separator |
| Glob.LeftmostIsMatch | agent/internal/ops/allowlist.go:63-66 | the search of filepath.Match, which places each piece between stars as far left as it can and never goes back, accepts a name if and only if some division among the stars fits, for patterns whose classes leave out the separator |
| Glob.LeftmostIsSound | agent/internal/ops/allowlist.go:63-66 | for every pattern, what the search accepts some division fits |
| Glob.SearchMissesMatch | agent/internal/ops/allowlist.go:63-66 | a pattern with the separator in a class and a name that fits it but that the search does not find |
| Glob.PatternRoundTrip | agent/internal/ops/allowlist.go:63-66 | every list of tokens, classes with members, can be written as a pattern that is read as itself: plain and escaped characters, wildcards, single members, ranges and negated classes |
| Glob.MalformedEnds | agent/internal/ops/allowlist.go:63-66 | a backslash at the end and an unfinished, empty or ill-started class make a pattern malformed, whatever stands before them |
| Glob.ClassMeaning | agent/internal/ops/allowlist.go:63-66 | a class holds its ranges with both ends, a negated one everything else |
| Allowlist.NewAllowlist | agent/internal/ops/allowlist.go:19-38 | the tables hold exactly the bare operations and, per operation, the patterns in configuration order |
| Allowlist.EntryMeans | agent/internal/ops/allowlist.go:24-35 | an entry with a colon behind its first character is a pattern for the operation before it, any other entry with text an operation |
| Allowlist.Permit | agent/internal/ops/allowlist.go:43-69 | permits exactly the bare operations and the non-empty paths some pattern of the operation grants, by prefix or by the search of filepath.Match |
| Allowlist.GrantsIff | agent/internal/ops/allowlist.go:57-67 | a directory grants exactly what starts with it, text without glob characters exactly itself, another glob exactly what matches component by component, malformed text nothing |
| Allowlist.RunFile | agent/internal/ops/file.go:47-121 | a file command is executed if and only if the path is permitted, clean and free of two dots, and then with `cat`, `install -m mode staged` or `rm -f` on exactly that path; it is denied if and only if it is not permitted |
| Allowlist.ReachedPathIsCovered | agent/internal/ops/allowlist.go:43-69 | for an operation with rooted patterns only, a path that reaches a command is absolute, normal, free of two dots, and beneath a listed directory or matched component by component |
| Allowlist.ReachedPathIsNormal | agent/internal/ops/file.go:67-70 | for any patterns, such a path is its own normal form, has no component of two dots, and some pattern grants it |
| Allowlist.RelativeReachedIff | agent/internal/ops/file.go:51-55 | with directory patterns only, some relative path reaches a command if and only if the operation is listed bare or one of the patterns is a normal relative directory free of two dots |
| Allowlist.RelativeRead | agent/internal/ops/file.go:63-75 | with a bare entry for reading, the file `a` of the working directory is read |
| Allowlist.DirectoryGlobIff | agent/internal/ops/allowlist.go:57-67 | a well-formed directory pattern, each of whose classes some character fits, grants every path its glob reading covers if and only if it holds none of the glob characters |
| Allowlist.StarredDirectory | agent/internal/ops/allowlist.go:57-67 | with one star, a path the glob reading covers is granted only if it spells the star out |
| Allowlist.ShippedDirectoryGlobDenies | agent/installer/install.sh:104 | the glob reading of the shipped entry covers a broker's own configuration file, and the entry does not grant it |
| BrokerConfig.ParseProperties | backend/app/services/config_manager.py:613-623 | the loop computes the map of the assignments, comments and other lines left out |
| BrokerConfig.ParseLineIff | backend/app/services/config_manager.py:613-623 | a line assigns if and only if, white space aside, it does not start with a hash sign and has an equals sign; the first one divides key and value |
| BrokerConfig.ParseIsLastAssignment | backend/app/services/config_manager.py:613-623 | a key is in the parsed map if and only if some line assigns it, with the value of the last such line |
| BrokerConfig.EditLoop | backend/app/services/config_manager.py:322-335 | every line the editor finds is replaced, all others stay in place and order, and a line is appended only when none was found |
| BrokerConfig.RecognisedAssigns | backend/app/services/config_manager.py:327 | a line the editor finds is an assignment to that key for the parser |
| BrokerConfig.FoundIff | backend/app/services/config_manager.py:327 | of all the ways to space a key from its equals sign the editor finds exactly two, nothing and one blank |
| BrokerConfig.EditedParse | backend/app/services/config_manager.py:322-335 | on every file, an edit sets the key to the stripped value if the line that counts is one the editor finds or none is found, and otherwise changes nothing in the parse |
| BrokerConfig.EditRefinesUpdateIff | backend/app/services/config_manager.py:322-335 | the edited lines parse to the old map with the key set to the stripped value and nothing else changed, if and only if the edit lands in that sense or the value was already there |
| BrokerConfig.EditFileParse | backend/app/services/config_manager.py:322-335 | the same for whole files and one-line values |
| BrokerConfig.EditFileRefinesUpdateIff | backend/app/services/config_manager.py:322-335 | parsing the edited file is the map update if and only if the edit lands or the value was already there |
| BrokerConfig.EditKeepsLanding | backend/app/services/config_manager.py:322-335 | no edit of this or another key changes whether edits of a key land |
| BrokerConfig.OnlyGoodKeysAreSet | backend/app/services/config_manager.py:613-623 | no file defines a key with surrounding white space, an equals sign, a line break or a leading hash sign, so an edit for one is never the map update |
| BrokerConfig.EditIdempotent | backend/app/services/config_manager.py:322-335 | editing a file twice is editing it once |
| BrokerConfig.ShadowedEdit | backend/app/services/config_manager.py:327 | a file on which an edit has no effect on the parse |
| BrokerConfig.WellSpelledLands | backend/app/services/config_manager.py:327 | on a file whose assignments are all spelled in the two ways the editor knows, every edit lands |
| ConfigAudit.ConfigManager.UpdateBrokerConfig | backend/app/services/config_manager.py:217-373 | for a known and reachable broker edits its file and appends a row with the parsed old value; otherwise changes nothing |
| ConfigAudit.ConfigManager.RollbackConfig | backend/app/services/config_manager.py:429-449 | for a row with an old value of a known and reachable broker writes that value back and appends a row labelled rollback; otherwise changes nothing |
| ConfigAudit.NewestWithKey | backend/app/services/config_manager.py:442-445 | the newest row with the key, whatever its broker |
| ConfigAudit.ConfigManager.BulkUpdate | backend/app/services/config_manager.py:375-427 | one result per broker in order, with the number of successes; failures do not stop or undo the others |
| ConfigAudit.BulkEditsReachable | backend/app/services/config_manager.py:401-412 | exactly the listed brokers that could be reached have the edited file, even when listed twice |
| ConfigAudit.KeyHistoryIff | backend/app/services/config_manager.py:353-363 | without outside edits, after every run of updates and rollbacks replaying the log gives the current value of a key and each old value logged for it, if and only if edits of the key land in the initial file |
| ConfigAudit.RowsChain | backend/app/services/config_manager.py:353-363 | where edits of the key land, each old value is the stripped new value of the previous row of that broker and key, the first one that of the initial file |
| ConfigAudit.RunIsReplay | backend/app/services/config_manager.py:353-363 | on files whose assignments are spelled in the ways the editor knows, replaying the log gives the whole parsed file |
| ConfigAudit.UpdateThenRollback | backend/app/services/config_manager.py:429-449 | on every file an update followed by the rollback of its row restores the parsed file if and only if the key existed; otherwise the rollback is refused |
| ConfigAudit.UnwindRestoresIff | backend/app/services/config_manager.py:429-449 | after any run on any files, rolling back every row newest first restores a broker's parsed file if and only if no row added a key to it |
| ConfigAudit.NewKeyIsNotRolledBack | backend/app/services/config_manager.py:429-439 | an update of an empty file whose rollback is refused, so that neither it nor a full unwinding restores the file |
| Decimal.IntsRoundTrip | backend/app/services/kafka_admin.py:895 | a printed list of integers reads back, except that the empty list cannot be read |
| Decimal.SignedRoundTrip | backend/app/services/kafka_admin.py:879 | a number may have a plus or minus sign and white space around it |
| Decimal.IntReadIff | backend/app/services/kafka_admin.py:879 | text is a number if and only if, white space aside, it is digits after at most one sign |
| TopicDescribe.ParseTopicDescribe | backend/app/services/kafka_admin.py:859-908 | the nested loops compute the topic of the header and partition lines, or fail at the first number that cannot be read |
| TopicDescribe.ParseAllTopicsDescribe | backend/app/services/kafka_admin.py:824-856 | cutting the listing at its headers and parsing each block as it closes gives the topics in order, or fails if any block does |
| TopicDescribe.PairMeans | backend/app/services/kafka_admin.py:881-884 | a piece of the configuration text counts if it has an equals sign; the first one divides it, and white space around key and value is dropped |
| DescribeFormat.DetailSeen | backend/app/services/kafka_admin.py:850 | a printed partition line is seen as one and never as a header, whatever the topic is called and whatever further columns it carries |
| DescribeFormat.ListingReads | backend/app/services/kafka_admin.py:824-908 | every printed list of topics, with any columns of unknown labels in headers and partition lines, is read topic by topic in order, the configuration in pieces cut at its commas, if every partition has a leader, a replica and an in-sync replica; otherwise the parser raises |
| DescribeFormat.DescribeRoundTrip | backend/app/services/kafka_admin.py:824-908 | with distinct configuration keys, such a list reads back as itself, in order, with configurations and partitions, if and only if every partition has a leader, a replica and an in-sync replica and no configuration key or value holds a comma; only the partitions make the parser raise |
| DescribeFormat.SecondPolicyDropped | backend/app/services/kafka_admin.py:879-884 | a healthy topic configured with `cleanup.policy=compact,delete` is listed with `compact` alone, and nothing raises |
| DescribeFormat.OfflineFailsListing | backend/app/services/kafka_admin.py:890-897 | one topic with a partition that has no leader and no in-sync replica, wherever it stands, makes the listing of all topics raise |
| DescribeFormat.OneTopicReads | backend/app/services/kafka_admin.py:859-908 | the single-topic parser on one topic's own listing gives that topic back under exactly the same condition, and raises for the partitions only |
| DescribeFormat.ListingAgreesWithSingles | backend/app/services/kafka_admin.py:824-856 | on every printed list, commas or not, the multi-topic parser agrees with the single-topic parser run on each topic alone |
| PartitionDistribution.GetPartitionDistribution | backend/app/services/kafka_admin.py:1470-1517 | the report names exactly the brokers and topics of the partition records, ascending and once each, with their leader and replica counts and their partitions in order; it fails if and only if a line cannot be read (what the records of a text are is stated in DistributionFormat) |
| PartitionDistribution.CountsAreConserved | backend/app/services/kafka_admin.py:1493-1510 | leader counts add up to the partitions with a leader, replica counts to the replicas listed, listed partitions to the partition lines |
| PartitionDistribution.ReportIsUnique | backend/app/services/kafka_admin.py:1504-1517 | the report is determined by the records |
| DistributionFormat.PrintedRecords | backend/app/services/kafka_admin.py:1466-1500 | for every printed list of topics, with any columns of unknown labels, the partition records are the printed partitions topic by topic in order, with name, id, leader, replicas and in-sync replicas as printed, and one more for each header that holds `Partition:`; reading fails if and only if some partition lacks a leader, a replica or an in-sync replica |
| DistributionFormat.RecordsRoundTrip | backend/app/services/kafka_admin.py:1466-1500 | the records are exactly the printed partitions if and only if every partition is placed and no header holds `Partition:` |
| DistributionFormat.HeaderCounted | backend/app/services/kafka_admin.py:1468 | a topic with one healthy partition and a configuration value that holds `Partition:` is counted as two partitions, one without a leader |
| DistributionFormat.DistributionOf | backend/app/services/kafka_admin.py:1489-1517 | the report on a printed list names exactly the brokers that lead or hold a printed partition, with how many of all printed ones, and exactly the topics with partitions, with those printed |
| Sorting.Sorted | backend/app/services/kafka_admin.py:1504 | ascending, without repeats, exactly the members of the set |
| PrometheusSeries.QueryRange | backend/app/api/monitoring.py:542-554 | one point for exactly the times some sample with a usable time and value has, in time order, each the sum of the values of all such samples of all instances at that time |
| PrometheusSeries.SeriesConservesTotal | backend/app/api/monitoring.py:542-554 | the merged series adds up to all usable samples |
| PrometheusSeries.FitOnSeriesIsUnique | backend/app/api/monitoring.py:614-623 | on every series long enough for a forecast the fitted line is the only best one |
| CapacityForecast.LinearFitIsOptimal | backend/app/api/monitoring.py:557-568 | no line has a smaller sum of squared errors than the fitted one, for all samples, the short and the degenerate ones included |
| CapacityForecast.LinearFitIsUnique | backend/app/api/monitoring.py:557-568 | with two different sample times any line that does as well is the fitted one |
| CapacityForecast.FlatWithoutSpread | backend/app/api/monitoring.py:557-568 | without two different sample times the line is flat, at the mean of the values, or at zero without samples |
| CapacityForecast.Project | backend/app/api/monitoring.py:634-641 | the loop ends with exactly the points on the line every 3600 seconds from now to the horizon, 24 a day and both ends included, or none for a negative horizon |
| CapacityForecast.EtaIsTheCrossing | backend/app/api/monitoring.py:643-650 | an ETA is given if and only if the slope is positive and the line is below the threshold now; the line is below the threshold before it, at it then, above it after |
| DeploymentLog.TaskTable.InitTask | backend/app/services/deployer.py:62-70 | a fresh task starts with the empty log, other tasks keep theirs |
| DeploymentLog.TaskTable.AppendLog | backend/app/services/deployer.py:91-108 | the row's log gets the message, cut to head, marker and tail past the cap; an unreadable column starts over, a missing row changes nothing |
| DeploymentLog.TaskTable.AppendLogSuffix | backend/app/services/agent_deployer.py:85-99 | the row's log gets the message, cut to its last 5000 lines |
| DeploymentLog.StoredLogIsView | backend/app/services/deployer.py:91-108 | after any interleaving of appends every task stores its full history up to 5000 lines, and past that the first 200, one marker and the last 4799 |
| DeploymentLog.StoredLogInNumbers | backend/app/services/deployer.py:91-108 | in numbers: up to 5000 lines all, of more the first 200, the marker text and the last 4799 |
| DeploymentLog.ViewIsBoundedAndMarkedOnce | backend/app/services/deployer.py:102-106 | the stored log never exceeds the cap and, besides kept messages spelled like it, holds the marker once when something was dropped and never otherwise |
| DeploymentLog.SuffixLogIsSuffix | backend/app/services/agent_deployer.py:95-97 | the agent deployer stores the last 5000 lines of the full history |
| DeploymentLog.SuffixInNumbers | backend/app/services/agent_deployer.py:95-97 | in numbers: the last 5000 lines |
| DeploymentLog.DeployersAgreeIff | backend/app/services/agent_deployer.py:95-97 | the two deployers store the same log if and only if nothing had to be dropped |
| StreamPolling.StreamRecord.HandleLine | backend/app/services/ksql_admin.py:372-402 | what each kind of output line does to the rows, columns, query id and status |
| StreamPolling.StreamRecord.Poll | backend/app/services/ksql_admin.py:415-433 | without interference a poll hands out exactly the rows not handed out before |
| StreamPolling.StreamRecord.Stop | backend/app/services/ksql_admin.py:436-449 | the status becomes stopped and all rows stay |
| StreamPolling.PollsAreSubsequence | backend/app/services/ksql_admin.py:415-433 | in every interleaving the concatenated polls are rows at strictly increasing positions, complete up to the offset if and only if nothing was skipped |
| StreamPolling.PrefixIffNoAppendInWindow | backend/app/services/ksql_admin.py:422-424 | the polls are a prefix if and only if no row was appended between the slice and the offset update of a poll |
| StreamPolling.LostRow | backend/app/services/ksql_admin.py:422-424 | a run in which a row is never delivered |
| StreamPolling.NeverRunsAgain | backend/app/services/ksql_admin.py:348-449 | a stream that left the running state never returns to it, and a finished worker adds no rows |
| StreamPolling.StatusChanges | backend/app/services/ksql_admin.py:348-449 | a stop request always stops, a crash at work fails, the final message and the end of the output finish, and after its worker has ended only a stop request changes the status |
| StreamPolling.EndsDone | backend/app/services/ksql_admin.py:348-411 | a stream that is not stopped runs until its worker ends, and then has failed if the worker crashed at work and is done otherwise |
| StreamPolling.PollAfterEndIsComplete | backend/app/services/ksql_admin.py:415-433 | the first whole poll after the worker ended hands out everything that is left and reports the end |
| StreamPolling.CompleteIff | backend/app/services/ksql_admin.py:415-433 | between polls everything stored has been delivered if and only if no row was appended inside the window of a poll or since the last offset update |
| StreamPolling.DoneClientIff | frontend/src/components/clusters/KsqlManager.tsx:88-98 | a client that stops at the first poll reporting the end keeps what it has, misses at most the row in the worker's hand besides skipped ones, and has every row, whatever else happens, if and only if none was appended inside a poll's window or after the last offset update |
| StreamPolling.StoppedTooEarly | frontend/src/components/clusters/KsqlManager.tsx:95-98 | a stopped stream on which the client is told of the end before the last row is stored |
| ClusterLifecycle.VisitsEachOnce | backend/app/services/cluster_manager.py:36-54 | the tier order is a permutation of the services, tier by tier and stable within a tier |
| ClusterLifecycle.OppositeOrders | backend/app/services/cluster_manager.py:36-54 | of two known services in different tiers, one starts before the other if and only if it stops after it |
| ClusterLifecycle.VisitOrderIff | backend/app/services/cluster_manager.py:36-54 | one service is started before another if and only if its role comes first - controllers and ZooKeeper, brokers, ksqlDB and Connect, schema registry, others - or neither does and it is listed first; stopping turns the known roles round |
| ClusterLifecycle.Cluster.StartCluster | backend/app/services/cluster_manager.py:528-568 | a service on a known host becomes running if its start works and an error if not, one on an unknown host keeps its status; one result row each in tier order, and the state is running if and only if all succeed, else error |
| ClusterLifecycle.Cluster.StopCluster | backend/app/services/cluster_manager.py:571-579 | a service on a known host whose stop works becomes stopped, every other keeps its status; one result row each in tier order, and the state is stopped if and only if all succeed, else error |
| ClusterLifecycle.Cluster.Sync | backend/app/services/cluster_manager.py:503-525 | the state becomes the synchronised one and the result says whether it changed |
| ClusterLifecycle.Cluster.GetClusterStatus | backend/app/services/cluster_manager.py:589-672 | where the host is known, active and activating become running, inactive stopped, failed error, and everything else keeps its status; then a managed cluster that is not being deployed is in error if a core service failed, and runs if and only if it was found running in every core service |
| ClusterLifecycle.Cluster.RemoveService | backend/app/api/clusters.py:571-644 | the decision is that of the guards, and only an accepted removal takes the row out |
| ClusterLifecycle.SyncedRunningIff | backend/app/services/cluster_manager.py:503-525 | after a sync the state is running if and only if every core service is |
| ClusterLifecycle.SyncedState | backend/app/services/cluster_manager.py:503-525 | with core services, an error among them wins, agreement on running or stopped is taken over, and a mixture makes an error of a running cluster and leaves any other state |
| ClusterLifecycle.NotSynced | backend/app/services/cluster_manager.py:503-508 | a cluster that is not managed, is being deployed or has no core service is left alone |
| ClusterLifecycle.PollDecides | backend/app/services/cluster_manager.py:644-668 | a poll ends in an error if a core service on a known host failed, and in running if and only if every core service answers active or activating, or was running and gave no deciding answer |
| ClusterLifecycle.SyncIdempotent | backend/app/services/cluster_manager.py:503-525 | syncing twice is syncing once |
| ClusterLifecycle.PollMakesHonest | backend/app/services/cluster_manager.py:589-672 | after a status poll running means that every core service is running, whatever was stored before |
| ClusterLifecycle.RunKeepsHonest | backend/app/services/cluster_manager.py:528-672 | over every run of starts, stops, polls and removals of a managed cluster, running means that every core service is running |
| ClusterLifecycle.AddKeepsHonestIff | backend/app/api/clusters.py:554-563 | adding a service keeps that if and only if the cluster is not running, or the service is not a core one, or it starts out running |
| ClusterLifecycle.PendingBrokerAdded | backend/app/api/clusters.py:554-563 | a running cluster with an added broker that is still pending says running, and error after the next status poll |
| ClusterLifecycle.RemovedIff | backend/app/api/clusters.py:585-642 | the guards in one condition, in both directions; the fourth guard never decides |
| ClusterLifecycle.RefusalIff | backend/app/api/clusters.py:580-642 | each refusal if and only if its reason holds: no such service, the last broker, the last controller, too few brokers left, or a failed cleanup on a known host; forced removals are only refused when there is nothing to remove |
| ClusterLifecycle.RoleGroups | backend/app/api/clusters.py:589-590 | which roles are core, brokers and controllers |
| ClusterLifecycle.CountsAreNumbers | backend/app/api/clusters.py:592-593 | the counts of brokers and controllers are the numbers of services with such a role |
| ClusterLifecycle.GuardsAreExact | backend/app/api/clusters.py:585-620 | with enough brokers the guards refuse exactly the removals that would leave too few brokers or take away the last controller, whether or not the cluster has controllers |
| ClusterLifecycle.RunKeepsStaff | backend/app/api/clusters.py:585-638 | over every run without forced removals a cluster that has as many brokers as its replication factor and at least one keeps them, and one that has a controller, which ZooKeeper clusters need not, keeps one |

## Left out

- Transport: SSH, WebSocket, HTTP, Ansible, subprocesses and database sessions are outcomes of actions or parameters, and each database operation is one step.
- Cryptography: password hashes and signed tokens are ideal; tokens and frame ids are fresh.
- AgentCommands.Handle: which checks and preparations a branch makes before it runs its program is the refusal it is given, since the checks of the Kafka and file branches are in their own modules; how a program ends is given as os/exec reports it, and error messages are shortened.
- Agent rows: keyed by host; the agent id in a signed token stands for its host.
- Two connects at once: authentication and the commit that clears the pending token are one step, so two connections racing with the same registration token are not modelled.
- Numbers: floating point is exact reals, Python integers are read without underscores, other digits or length limits.
- White space: blank, tab, line feed, vertical tab, form feed and carriage return; line feed is the only line separator.
- Configuration files: values on one line; a value with a newline becomes several lines of the file.
- Unknown columns: their labels are not those of the parser that reads them.
- Topic configurations: values as Kafka keeps them, without surrounding white space and with no other white space than blanks inside; keys without an equals sign.
- Letter case: statuses are compared as stored, which is always in lower case.
- ConfigAudit.ConfigManager.UpdateBrokerConfig: one outcome stands for reading and writing over either transport, and external clusters and the check for known keys are not part of this model.
- ConfigAudit.NewestWithKey: rows are ordered by position, so two rows with the same time stamp do not arise.
- AgentKafkaCli.TransportsAgree: the words of the command line are compared, not expansions a remote shell could make of unquoted ones.
- Service rows: values inside the cluster object, so aliasing between queries of one session is not modelled.
- DeploymentLog: the removal of the initial access-control lines after a deployment is not part of a log's run.
- Cluster deletion: its cleanup changes service statuses without the cluster state and is not an action of the lifecycle runs, nor are deployments and upgrades.
- Consumer messages and groups: output heuristics without a crisp contract.
- Reconnect delays, durations, slugs, templates, schemas, simple record endpoints and the other managers: plumbing around libraries, which would only add easy members.
