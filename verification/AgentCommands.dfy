/** Commands between the backend and a host agent over one connection: correlation ids,
    concurrent handlers, replies in any order, timeouts and loss. */
module AgentCommands {
  import opened Wrappers

  type Id = string

  // ---- The agent's reply to one command (exec.go, dispatch.go, client.go) ----

  datatype ExecResult = ExecResult(exitCode: int, stdout: string, stderr: string)
  datatype ExecError = NoError | TimeoutError | OtherError(message: string)

  /** What exec.Run returns; without a result there is always an error. */
  datatype Execution = Execution(result: Option<ExecResult>, error: ExecError)

  predicate Possible(e: Execution) {
    e.result.None? ==> e.error != NoError
  }

  datatype ErrorPayload = ErrorPayload(code: string, message: string)

  /** The pair of optional payloads a command handler returns. */
  datatype Handled = Handled(result: Option<ExecResult>, error: Option<ErrorPayload>)

  predicate ExactlyOne(h: Handled) {
    h.result.Some? <==> h.error.None?
  }

  /** The exit state of a program that ran and did not succeed. */
  datatype ExitState = Code(code: int) | Signalled

  /** How os/exec comes back from a program: without an error, with an exit state, or with
      another error, when it could not be started or its context ended first. */
  datatype Ending = Succeeded | Failed(state: ExitState) | OtherEnding(message: string)

  /** A program to run, and what becomes of it; `expired` says that the deadline has passed. */
  datatype Process = Process(argv: seq<string>, ending: Ending, expired: bool, stdout: string, stderr: string)

  // ExitError.ExitCode()
  function CodeOf(state: ExitState): int {
    match state case Code(n) => n case Signalled => -1
  }

  /** exec.Run: an exit state is looked at before the deadline. */
  function Execute(p: Process): (e: Execution)
    ensures Possible(e)
  {
    if p.argv == [] then Execution(None, OtherError("empty argv"))
    else
      match p.ending
      case Succeeded => Execution(Some(ExecResult(0, p.stdout, p.stderr)), NoError)
      case Failed(state) => Execution(Some(ExecResult(CodeOf(state), p.stdout, p.stderr)), NoError)
      case OtherEnding(message) =>
        if p.expired then Execution(Some(ExecResult(-1, p.stdout, p.stderr + "\n(killed: timeout)\n")), TimeoutError)
        else Execution(Some(ExecResult(-1, "", message)), OtherError(message))
  }

  function RunResult(e: Execution): Handled
    requires Possible(e)
  {
    if e.error == TimeoutError then Handled(None, Some(ErrorPayload("timeout", "command exceeded its timeout")))
    else if e.error != NoError && e.result.None? then Handled(None, Some(ErrorPayload("exec_failed", e.error.message)))
    else Handled(e.result, None)
  }

  /** A handled command has a result or an error, never both or neither; a timeout is always
      an error, and an exit code, zero or not, is reported as it is. */
  lemma RunResultIsExclusive(e: Execution)
    requires Possible(e)
    ensures ExactlyOne(RunResult(e))
    ensures RunResult(e).result.Some? <==> e.result.Some? && e.error != TimeoutError
    ensures RunResult(e).result.Some? ==> RunResult(e).result.value.exitCode == e.result.value.exitCode
  {
  }

  predicate HasCode(h: Handled, code: string) {
    h.error.Some? && h.error.value.code == code
  }

  /** What is reported of a program: a timeout exactly when its deadline has passed and it
      came back without an exit state; a failure to execute exactly when there is no program
      to run; and otherwise its exit code, which is -1 for one that could not be started. */
  lemma ReportIff(p: Process)
    ensures HasCode(RunResult(Execute(p)), "timeout") <==> p.argv != [] && p.expired && p.ending.OtherEnding?
    ensures HasCode(RunResult(Execute(p)), "exec_failed") <==> p.argv == []
    ensures RunResult(Execute(p)).result.Some? ==>
              RunResult(Execute(p)).result.value.exitCode
              == match p.ending case Succeeded => 0 case Failed(state) => CodeOf(state) case OtherEnding(_) => -1
  {
    assert |"timeout"| != |"exec_failed"|;
  }

  /** A program killed at its deadline ends by a signal: it is no timeout but a result. */
  lemma KilledAtDeadline(argv: seq<string>, stdout: string, stderr: string)
    requires argv != []
    ensures var killed := Process(argv, Failed(Signalled), true, stdout, stderr);
            Execute(killed).error != TimeoutError
            && RunResult(Execute(killed)) == Handled(Some(ExecResult(-1, stdout, stderr)), None)
  {
  }

  /** Which branch of the dispatcher a command's operation selects. */
  datatype Family = Systemctl | Journalctl | KafkaCli | Download | File | Script | Exec | Unknown

  function FamilyOf(op: string): Family {
    if "systemctl." <= op then Systemctl
    else if "journalctl." <= op then Journalctl
    else if "kafka_cli." <= op then KafkaCli
    else if op == "file.download" then Download
    else if "file." <= op then File
    else if op == "exec.script" then Script
    else if "exec." <= op then Exec
    else Unknown
  }

  /** A command's operation and its arguments as sent. */
  datatype Cmd = Cmd(op: string, args: string)

  /** How the agent meets a command: whether its payload can be decoded and the allowlist
      permits it, what the checks and preparations of its branch refuse it with, if anything,
      and the program it stands for. */
  datatype Call =
    | Malformed(reason: string)
    | Call(permitted: bool, refusal: Option<ErrorPayload>, process: Process)

  /** Dispatcher.Run behind handleCmd: what is refused never runs, and what runs is reported
      by its execution alone. */
  function Handle(op: string, c: Call): (h: Handled)
    ensures ExactlyOne(h)
    ensures h.result.Some? ==> c.Call? && c.permitted && c.refusal.None?
  {
    match c
    case Malformed(reason) => Handled(None, Some(ErrorPayload("bad_args", reason)))
    case Call(permitted, refusal, process) =>
      if !permitted then Handled(None, Some(ErrorPayload("denied", "op is not in the agent's local allowlist")))
      else if FamilyOf(op) == Unknown then Handled(None, Some(ErrorPayload("bad_args", "unknown op")))
      else if refusal.Some? then Handled(None, refusal)
      else RunResult(Execute(process))
  }

  /** The beginnings of all operations the agent knows. */
  predicate HasKnownPrefix(op: string) {
    || "systemctl." <= op || "journalctl." <= op || "kafka_cli." <= op
    || "file." <= op || "exec." <= op
  }

  lemma StartsWith(op: string, prefix: string, c: char)
    requires prefix != "" && prefix[0] == c
    ensures prefix <= op ==> op != "" && op[0] == c
  {
  }

  lemma PrefixesDiffer(op: string)
    ensures "systemctl." <= op ==> op != "" && op[0] == 's'
    ensures "journalctl." <= op ==> op != "" && op[0] == 'j'
    ensures "kafka_cli." <= op ==> op != "" && op[0] == 'k'
    ensures "file." <= op ==> op != "" && op[0] == 'f'
    ensures "exec." <= op ==> op != "" && op[0] == 'e'
  {
    StartsWith(op, "systemctl.", 's');
    StartsWith(op, "journalctl.", 'j');
    StartsWith(op, "kafka_cli.", 'k');
    StartsWith(op, "file.", 'f');
    StartsWith(op, "exec.", 'e');
  }

  lemma SpecialPrefixes()
    ensures "file." <= "file.download" && "exec." <= "exec.script"
  {
  }

  /** Every operation takes the branch of its own prefix; downloads and scripts take their
      own although they carry the prefix of a family. */
  lemma Branches(op: string)
    ensures "systemctl." <= op ==> FamilyOf(op) == Systemctl
    ensures "journalctl." <= op ==> FamilyOf(op) == Journalctl
    ensures "kafka_cli." <= op ==> FamilyOf(op) == KafkaCli
    ensures "file." <= op ==> FamilyOf(op) == if op == "file.download" then Download else File
    ensures "exec." <= op ==> FamilyOf(op) == if op == "exec.script" then Script else Exec
    ensures FamilyOf(op) == Unknown <==> !HasKnownPrefix(op)
  {
    SpecialPrefixes();
    PrefixesDiffer(op);
  }

  /** A command gets a result exactly when it is decoded, permitted, has a known prefix and
      is not refused by its branch, and there is a program that did not run past its deadline
      without leaving an exit state; everything else gets an error. */
  lemma ResultIff(op: string, c: Call)
    ensures Handle(op, c).result.Some?
            <==> c.Call? && c.permitted && HasKnownPrefix(op) && c.refusal.None?
                 && c.process.argv != [] && !(c.process.expired && c.process.ending.OtherEnding?)
    ensures c.Malformed? ==> HasCode(Handle(op, c), "bad_args")
    ensures c.Call? && !c.permitted ==> HasCode(Handle(op, c), "denied")
    ensures c.Call? && c.permitted && HasKnownPrefix(op) && c.refusal.Some? ==> Handle(op, c).error == c.refusal
  {
    Branches(op);
    if c.Call? {
      RunResultIsExclusive(Execute(c.process));
    }
  }

  /** What the agent answers to a permitted command of a known prefix that its branch lets
      through: the exit code and the output of its program, word for word, unless the
      deadline passed and no exit state was left. */
  lemma KnownAnswer(op: string, p: Process)
    requires HasKnownPrefix(op) && p.argv != []
    ensures Handle(op, Call(true, None, p))
            == match p.ending
               case Succeeded => Handled(Some(ExecResult(0, p.stdout, p.stderr)), None)
               case Failed(Code(n)) => Handled(Some(ExecResult(n, p.stdout, p.stderr)), None)
               case Failed(Signalled) => Handled(Some(ExecResult(-1, p.stdout, p.stderr)), None)
               case OtherEnding(message) =>
                 if p.expired then Handled(None, Some(ErrorPayload("timeout", "command exceeded its timeout")))
                 else Handled(Some(ExecResult(-1, "", message)), None)
  {
    Branches(op);
  }

  /** And to a permitted command without any of the prefixes, whatever it would run. */
  lemma UnknownAnswer(op: string, refusal: Option<ErrorPayload>, p: Process)
    requires !HasKnownPrefix(op)
    ensures Handle(op, Call(true, refusal, p)) == Handled(None, Some(ErrorPayload("bad_args", "unknown op")))
  {
    Branches(op);
  }

  datatype Kind = ResultKind | ErrorKind | Heartbeat | Event | OtherKind

  datatype Payload = ResultPayload(result: ExecResult) | FailurePayload(error: ErrorPayload)

  /** A frame from the agent; an empty `ref` means the field is absent. */
  datatype Frame = Frame(kind: Kind, ref: Id, payload: Payload)

  /** What the backend hands on: {"ok": true, "result": ...} or {"ok": false, "error": ...}. */
  datatype Reply = Reply(ok: bool, payload: Payload)

  function PayloadOf(h: Handled): Payload
    requires ExactlyOne(h)
  {
    if h.error.Some? then FailurePayload(h.error.value) else ResultPayload(h.result.value)
  }

  function ReplyOf(h: Handled): Reply
    requires ExactlyOne(h)
  {
    Reply(h.result.Some?, PayloadOf(h))
  }

  /** handleCmd: the one frame sent back, tagged with the command's own id. */
  function ReplyFrame(id: Id, h: Handled): Frame
    requires ExactlyOne(h)
  {
    Frame(if h.error.Some? then ErrorKind else ResultKind, id, PayloadOf(h))
  }

  // ---- The backend's session ----

  datatype Future = Open | Completed(reply: Reply) | Cancelled

  predicate IsReply(f: Frame) {
    f.ref != "" && (f.kind.ResultKind? || f.kind.ErrorKind?)
  }

  // A frame that settles a waiting command.
  predicate Settles(pending: map<Id, Future>, f: Frame) {
    IsReply(f) && f.ref in pending && pending[f.ref].Open?
  }

  // The backend goes by the kind of the frame.
  function ReadReply(f: Frame): Reply {
    Reply(f.kind.ResultKind?, f.payload)
  }

  function Delivered(pending: map<Id, Future>, f: Frame): map<Id, Future> {
    if Settles(pending, f) then pending[f.ref := Completed(ReadReply(f))] else pending
  }

  /** How a call of send_cmd ended. */
  datatype Outcome = Value(reply: Reply) | TimedOut | Raised

  class AgentSession {
    const agentId: string
    const hostId: string
    var pending: map<Id, Future>

    constructor (agentId: string, hostId: string)
      ensures this.agentId == agentId && this.hostId == hostId && pending == map[]
    {
      this.agentId, this.hostId, pending := agentId, hostId, map[];
    }

    /** First part of send_cmd: the future is registered before anything is sent. */
    method BeginCmd(id: Id)
      requires id !in pending
      modifies this
      ensures pending == old(pending)[id := Open]
    {
      pending := pending[id := Open];
    }

    /** A reply completes the waiting command it names; every other frame changes nothing. */
    method Deliver(f: Frame) returns (delivered: bool)
      modifies this
      ensures delivered <==> Settles(old(pending), f)
      ensures pending == Delivered(old(pending), f)
    {
      if f.ref == "" || f.ref !in pending || !pending[f.ref].Open? {
        return false;
      }
      match f.kind {
        case ResultKind =>
          pending := pending[f.ref := Completed(Reply(true, f.payload))];
          return true;
        case ErrorKind =>
          pending := pending[f.ref := Completed(Reply(false, f.payload))];
          return true;
        case _ =>
          return false;
      }
    }

    // The wait gives up: the future is cancelled, and stays registered until the caller's cleanup runs.
    method Expire(id: Id)
      requires id in pending && pending[id].Open?
      modifies this
      ensures pending == old(pending)[id := Cancelled]
    {
      pending := pending[id := Cancelled];
    }

    /** Last part of send_cmd: the entry is removed whatever happened. */
    method EndCmd(id: Id) returns (outcome: Outcome)
      requires id in pending
      modifies this
      ensures outcome == OutcomeOf(old(pending)[id])
      ensures pending == old(pending) - {id}
    {
      outcome := OutcomeOf(pending[id]);
      pending := pending - {id};
    }
  }

  function OutcomeOf(f: Future): Outcome {
    match f
    case Completed(r) => Value(r)
    case Cancelled => TimedOut
    case Open => Raised
  }

  // ---- Both ends and the frames between them ----

  /** The command a frame carried, how the agent met it, and what it replied. */
  datatype Answer = Answer(cmd: Cmd, call: Call, reply: Reply)

  /** The session's pending table; command frames under way and handlers at work, by command
      id; reply frames under way, which may arrive in any order and any number of times; and
      the history: commands asked for and sent, the answer the agent made to each command
      frame, and how each call ended. */
  datatype World = World(
    pending: map<Id, Future>, asked: map<Id, Cmd>, transmitted: set<Id>,
    down: map<Id, Cmd>, running: map<Id, Cmd>, up: set<Frame>,
    produced: map<Id, Answer>, returned: map<Id, Outcome>)

  datatype Action =
    | Begin(id: Id, cmd: Cmd)                     // send_cmd registers a fresh id
    | Transmit(id: Id)                            // ... and sends the frame
    | SendFails(id: Id)                           // ... or the send raises
    | Receive(id: Id)                             // the agent starts a handler
    | Finish(id: Id, call: Call, sent: bool)      // the handler ends; its reply may not get out
    | LoseCmd(id: Id)
    | Stray(f: Frame)                             // heartbeats, events, frames without a ref
    | Deliver(f: Frame)
    | Drop(f: Frame)                              // no further arrival of this frame
    | Expire(id: Id)
    | Return(id: Id)

  const START := World(map[], map[], {}, map[], map[], {}, map[], map[])

  predicate Enabled(w: World, a: Action) {
    match a
    case Begin(id, _) => id != "" && id !in w.asked
    case Transmit(id) => id in w.pending && id in w.asked && id !in w.transmitted
    case SendFails(id) => id in w.pending && w.pending[id].Open? && id !in w.transmitted
    case Receive(id) => id in w.down
    case Finish(id, _, _) => id in w.running
    case LoseCmd(id) => id in w.down
    case Stray(f) => !IsReply(f)
    case Deliver(f) => f in w.up
    case Drop(f) => f in w.up
    case Expire(id) => id in w.pending && w.pending[id].Open? && id in w.transmitted
    case Return(id) => id in w.pending && !w.pending[id].Open?
  }

  function Next(w: World, a: Action): World
    requires Enabled(w, a)
  {
    match a
    case Begin(id, cmd) => w.(pending := w.pending[id := Open], asked := w.asked[id := cmd])
    case Transmit(id) => w.(transmitted := w.transmitted + {id}, down := w.down[id := w.asked[id]])
    case SendFails(id) => w.(pending := w.pending - {id}, returned := w.returned[id := Raised])
    case Receive(id) => w.(down := w.down - {id}, running := w.running[id := w.down[id]])
    case Finish(id, call, sent) =>
      w.(running := w.running - {id},
         produced := w.produced[id := Answer(w.running[id], call, ReplyOf(Handle(w.running[id].op, call)))],
         up := if sent then w.up + {ReplyFrame(id, Handle(w.running[id].op, call))} else w.up)
    case LoseCmd(id) => w.(down := w.down - {id})
    case Stray(f) => w.(up := w.up + {f})
    case Deliver(f) => w.(pending := Delivered(w.pending, f))
    case Drop(f) => w.(up := w.up - {f})
    case Expire(id) => w.(pending := w.pending[id := Cancelled])
    case Return(id) => w.(pending := w.pending - {id}, returned := w.returned[id := OutcomeOf(w.pending[id])])
  }

  // An action that is not possible in a state leaves it unchanged.
  function Step(w: World, a: Action): World {
    if Enabled(w, a) then Next(w, a) else w
  }

  function Run(w: World, actions: seq<Action>): World {
    if actions == [] then w else Step(Run(w, actions[..|actions| - 1]), actions[|actions| - 1])
  }

  /** Commands: the pending ones and the ended ones are exactly those asked for. */
  ghost predicate Bookkeeping(w: World) {
    && w.pending.Keys + w.returned.Keys == w.asked.Keys
    && w.pending.Keys !! w.returned.Keys
    && w.transmitted <= w.asked.Keys
    && "" !in w.asked
  }

  /** A command sent is in at most one place: under way, being handled, or answered. */
  ghost predicate OnePlace(w: World) {
    && w.down.Keys + w.running.Keys + w.produced.Keys <= w.transmitted <= w.asked.Keys
    && w.down.Keys !! w.running.Keys && w.down.Keys !! w.produced.Keys && w.running.Keys !! w.produced.Keys
  }

  /** What is there is the command that was asked for. */
  ghost predicate AsAsked(w: World) {
    && (forall id :: id in w.down ==> id in w.asked && w.down[id] == w.asked[id])
    && (forall id :: id in w.running ==> id in w.asked && w.running[id] == w.asked[id])
    && (forall id :: id in w.produced ==> id in w.asked && w.produced[id].cmd == w.asked[id])
  }

  /** Every answer is the one the dispatcher makes to the command as it met it. */
  ghost predicate Dispatched(w: World) {
    forall id :: id in w.produced ==>
      w.produced[id].reply == ReplyOf(Handle(w.produced[id].cmd.op, w.produced[id].call))
  }

  /** Every reply under way is the one the agent produced for the command with that id. */
  ghost predicate TruthfulFrames(w: World) {
    forall f :: f in w.up && IsReply(f) ==> f.ref in w.produced && w.produced[f.ref].reply == ReadReply(f)
  }

  /** So is every reply a future holds or a call has returned. */
  ghost predicate TruthfulCalls(w: World) {
    && (forall id :: id in w.pending && w.pending[id].Completed? ==>
          id in w.produced && w.produced[id].reply == w.pending[id].reply)
    && (forall id :: id in w.returned && w.returned[id].Value? ==>
          id in w.produced && w.produced[id].reply == w.returned[id].reply)
  }

  /** A call raises only if its command was never sent, and times out only if it was. */
  ghost predicate Candid(w: World) {
    && (forall id :: id in w.pending && !w.pending[id].Open? ==> id in w.transmitted)
    && (forall id :: id in w.returned ==> (w.returned[id].Raised? <==> id !in w.transmitted))
  }

  ghost predicate Inv(w: World) {
    && Bookkeeping(w) && OnePlace(w) && AsAsked(w) && Dispatched(w)
    && TruthfulFrames(w) && TruthfulCalls(w) && Candid(w)
  }

  lemma StepKeepsBookkeeping(w: World, a: Action)
    requires Bookkeeping(w)
    ensures Bookkeeping(Step(w, a))
  {
  }

  lemma StepKeepsOnePlace(w: World, a: Action)
    requires Bookkeeping(w) && OnePlace(w)
    ensures OnePlace(Step(w, a))
  {
  }

  lemma StepKeepsAsked(w: World, a: Action)
    requires AsAsked(w)
    ensures AsAsked(Step(w, a))
  {
  }

  lemma StepKeepsDispatched(w: World, a: Action)
    requires Dispatched(w)
    ensures Dispatched(Step(w, a))
  {
  }

  lemma StepKeepsFrames(w: World, a: Action)
    requires OnePlace(w) && TruthfulFrames(w)
    ensures TruthfulFrames(Step(w, a))
  {
  }

  lemma StepKeepsCalls(w: World, a: Action)
    requires OnePlace(w) && TruthfulFrames(w) && TruthfulCalls(w)
    ensures TruthfulCalls(Step(w, a))
  {
  }

  lemma StepKeepsCandid(w: World, a: Action)
    requires Bookkeeping(w) && OnePlace(w) && TruthfulFrames(w) && Candid(w)
    ensures Candid(Step(w, a))
  {
  }

  lemma {:induction false} RunKeepsInv(actions: seq<Action>)
    ensures Inv(Run(START, actions))
  {
    if actions != [] {
      var w, a := Run(START, actions[..|actions| - 1]), actions[|actions| - 1];
      RunKeepsInv(actions[..|actions| - 1]);
      StepKeepsBookkeeping(w, a);
      StepKeepsOnePlace(w, a);
      StepKeepsAsked(w, a);
      StepKeepsDispatched(w, a);
      StepKeepsFrames(w, a);
      StepKeepsCalls(w, a);
      StepKeepsCandid(w, a);
    }
  }

  /** In every run, a command that completes returns exactly the reply the agent produced for
      the command frame with that id; that frame carried the command that was asked for, and
      the reply is the dispatcher's answer to it. */
  lemma CorrelationSafety(actions: seq<Action>, id: Id, reply: Reply)
    requires var w := Run(START, actions); id in w.returned && w.returned[id] == Value(reply)
    ensures var w := Run(START, actions);
            && id in w.asked && id in w.produced
            && w.produced[id].cmd == w.asked[id] && w.produced[id].reply == reply
            && reply == ReplyOf(Handle(w.asked[id].op, w.produced[id].call))
  {
    RunKeepsInv(actions);
  }

  /** In every run, a completed command returns a result exactly when the agent permitted it,
      its operation has a known prefix, its branch did not refuse it, and its program ended
      without missing its deadline; the result of one that succeeded has its output. */
  lemma ReturnedIff(actions: seq<Action>, id: Id, reply: Reply)
    requires var w := Run(START, actions); id in w.returned && w.returned[id] == Value(reply)
    ensures var w := Run(START, actions);
            && id in w.asked && id in w.produced
            && var c := w.produced[id].call;
               && (reply.ok <==> c.Call? && c.permitted && HasKnownPrefix(w.asked[id].op) && c.refusal.None?
                                 && c.process.argv != [] && !(c.process.expired && c.process.ending.OtherEnding?))
               && (reply.ok && c.process.ending.Succeeded? ==>
                     reply.payload == ResultPayload(ExecResult(0, c.process.stdout, c.process.stderr)))
  {
    CorrelationSafety(actions, id, reply);
    var w := Run(START, actions);
    ResultIff(w.asked[id].op, w.produced[id].call);
    if reply.ok {
      KnownAnswer(w.asked[id].op, w.produced[id].call.process);
    }
  }

  /** In every run, an operation without any known prefix never returns a result. */
  lemma UnknownNeverSucceeds(actions: seq<Action>, id: Id, reply: Reply)
    requires var w := Run(START, actions); id in w.returned && w.returned[id] == Value(reply)
    ensures var w := Run(START, actions); id in w.asked && (!HasKnownPrefix(w.asked[id].op) ==> !reply.ok)
  {
    ReturnedIff(actions, id, reply);
  }

  /** In every run, a call has raised exactly when its command was never sent; one that was
      sent has returned the agent's reply or timed out. */
  lemma RaisedIffUnsent(actions: seq<Action>, id: Id)
    requires id in Run(START, actions).returned
    ensures var w := Run(START, actions);
            && (w.returned[id] == Raised <==> id !in w.transmitted)
            && (w.returned[id] == TimedOut ==> id in w.transmitted)
            && (w.returned[id].Value? ==> id in w.produced && w.returned[id].reply == w.produced[id].reply)
  {
    RunKeepsInv(actions);
  }

  /** In every run the pending table holds exactly the commands asked for and not yet ended. */
  lemma PendingIsUnfinished(actions: seq<Action>)
    ensures var w := Run(START, actions); w.pending.Keys == w.asked.Keys - w.returned.Keys
  {
    RunKeepsInv(actions);
  }

  // Outcomes, answers and requests are kept.
  ghost predicate Recorded(w: World, t: World) {
    && (forall id :: id in w.returned ==> id in t.returned && t.returned[id] == w.returned[id])
    && (forall id :: id in w.produced ==> id in t.produced && t.produced[id] == w.produced[id])
    && (forall id :: id in w.asked ==> id in t.asked && t.asked[id] == w.asked[id])
  }

  // A settled future keeps its value until the call ends with it.
  ghost predicate Settled(w: World, t: World) {
    forall id :: id in w.pending && !w.pending[id].Open? ==>
      || (id in t.pending && t.pending[id] == w.pending[id])
      || (id in t.returned && t.returned[id] == OutcomeOf(w.pending[id]))
  }

  /** What is settled stays settled: an ended call keeps its outcome, a settled future keeps
      its value until the call ends with it, and the agent answers a command once. */
  ghost predicate Later(w: World, t: World) {
    Recorded(w, t) && Settled(w, t)
  }

  lemma StepRecords(w: World, a: Action)
    requires Bookkeeping(w) && OnePlace(w)
    ensures Recorded(w, Step(w, a))
  {
  }

  lemma StepSettles(w: World, a: Action)
    requires Bookkeeping(w)
    ensures Settled(w, Step(w, a))
  {
  }

  lemma LaterTransitive(w: World, t: World, u: World)
    requires Later(w, t) && Later(t, u)
    ensures Later(w, u)
  {
  }

  lemma RunLast(w: World, actions: seq<Action>, last: Action)
    ensures Run(w, actions + [last]) == Step(Run(w, actions), last)
  {
    assert (actions + [last])[..|actions|] == actions;
  }

  lemma {:induction false} SettledStaysSettled(before: seq<Action>, more: seq<Action>)
    ensures Later(Run(START, before), Run(START, before + more))
  {
    if more == [] {
      assert before + more == before;
    } else {
      var last, shorter := more[|more| - 1], before + more[..|more| - 1];
      SettledStaysSettled(before, more[..|more| - 1]);
      RunKeepsInv(shorter);
      StepRecords(Run(START, shorter), last);
      StepSettles(Run(START, shorter), last);
      RunLast(START, shorter, last);
      assert before + more == shorter + [last];
      LaterTransitive(Run(START, before), Run(START, shorter), Step(Run(START, shorter), last));
    }
  }

  /** A delivered frame changes the pending table exactly when it answers a command that still
      waits: unknown, late and repeated references have no effect. */
  lemma OnlyAwaitedRepliesCount(pending: map<Id, Future>, f: Frame)
    ensures Delivered(pending, f) != pending <==> Settles(pending, f)
    ensures Delivered(Delivered(pending, f), f) == Delivered(pending, f)
  {
    if Settles(pending, f) {
      assert Delivered(pending, f)[f.ref] != pending[f.ref];
    }
  }

  /** Nothing stands in the way of a command that has reached the wire: from any reachable
      state it can still complete with whatever its handler makes of it. */
  lemma CommandCanComplete(actions: seq<Action>, id: Id, call: Call)
    requires var w := Run(START, actions); id in w.down && id in w.pending && w.pending[id].Open?
    ensures var w := Run(START, actions);
            var t := Answered(w, id, call);
            && id in w.asked && id in t.returned
            && t.returned[id] == Value(ReplyOf(Handle(w.asked[id].op, call)))
  {
    RunKeepsInv(actions);
    AnswerArrives(Run(START, actions), id, call);
  }

  /** In particular one with a known prefix, permitted and let through, can return the exit
      code zero and the output of its program. */
  lemma KnownCanSucceed(actions: seq<Action>, id: Id, argv: seq<string>, expired: bool, stdout: string, stderr: string)
    requires var w := Run(START, actions); id in w.down && id in w.pending && w.pending[id].Open?
    requires HasKnownPrefix(Run(START, actions).down[id].op) && argv != []
    ensures var p := Process(argv, Succeeded, expired, stdout, stderr);
            var t := Answered(Run(START, actions), id, Call(true, None, p));
            && id in t.returned
            && t.returned[id] == Value(Reply(true, ResultPayload(ExecResult(0, stdout, stderr))))
  {
    var p := Process(argv, Succeeded, expired, stdout, stderr);
    RunKeepsInv(actions);
    CommandCanComplete(actions, id, Call(true, None, p));
    KnownAnswer(Run(START, actions).down[id].op, p);
  }

  /** And one that was sent can time out as long as it waits. */
  lemma CommandCanTimeOut(actions: seq<Action>, id: Id)
    requires var w := Run(START, actions); id in w.pending && w.pending[id].Open? && id in w.transmitted
    ensures var t := Step(Step(Run(START, actions), Expire(id)), Return(id));
            id in t.returned && t.returned[id] == TimedOut
  {
    var w := Step(Run(START, actions), Expire(id));
    assert id in w.pending && w.pending[id] == Cancelled;
  }

  function Answered(w: World, id: Id, call: Call): World
    requires id in w.down
  {
    Step(Step(Step(Step(w, Receive(id)), Finish(id, call, true)),
              Deliver(ReplyFrame(id, Handle(w.down[id].op, call)))), Return(id))
  }

  lemma ReplySent(w: World, id: Id, call: Call)
    requires id in w.down
    ensures var t := Step(Step(w, Receive(id)), Finish(id, call, true));
            t.pending == w.pending && ReplyFrame(id, Handle(w.down[id].op, call)) in t.up
  {
    var t := Step(w, Receive(id));
    assert id in t.running && t.running[id] == w.down[id];
  }

  lemma ReplyReturns(w: World, f: Frame)
    requires f in w.up && Settles(w.pending, f)
    ensures var t := Step(Step(w, Deliver(f)), Return(f.ref));
            f.ref in t.returned && t.returned[f.ref] == Value(ReadReply(f))
  {
    var t := Step(w, Deliver(f));
    assert f.ref in t.pending && t.pending[f.ref] == Completed(ReadReply(f));
  }

  lemma AnswerArrives(w: World, id: Id, call: Call)
    requires id in w.down && id in w.pending && w.pending[id].Open? && id != ""
    ensures var t := Answered(w, id, call);
            id in t.returned && t.returned[id] == Value(ReplyOf(Handle(w.down[id].op, call)))
  {
    ReplySent(w, id, call);
    ReplyReturns(Step(Step(w, Receive(id)), Finish(id, call, true)), ReplyFrame(id, Handle(w.down[id].op, call)));
  }
}
