/** Bounded deployment logs: the SSH deployer keeps the start and the end of a task's
    log, the agent deployer only the end. */
module DeploymentLog {
  const MAX_LINES := 5000
  const HEAD_LINES := 200
  const MARKER := "... [truncated due to log size limit] ..."

  /** The log column of a task row: a list of lines, or text that is not valid JSON. */
  datatype Column = Rows(lines: seq<string>) | Unreadable

  function ReadColumn(c: Column): seq<string> {
    match c
    case Rows(lines) => lines
    case Unreadable => []
  }

  // The last n elements.
  function Last<T>(s: seq<T>, n: nat): seq<T> {
    if n <= |s| then s[|s| - n..] else s
  }

  /** One append of the SSH deployer: past the cap, the middle gives way to the marker. */
  function Append(logs: seq<string>, message: string): seq<string> {
    var all := logs + [message];
    if |all| > MAX_LINES then all[..HEAD_LINES] + [MARKER] + Last(all, MAX_LINES - HEAD_LINES - 1) else all
  }

  /** One append of the agent deployer: past the cap, the oldest lines go. */
  function AppendSuffix(logs: seq<string>, message: string): seq<string> {
    Last(logs + [message], MAX_LINES)
  }

  /** The task table, reduced to the log column of each row. */
  class TaskTable {
    var logs: map<string, Column>

    constructor ()
      ensures logs == map[]
    {
      logs := map[];
    }

    // init_task: a fresh row holding "[]".
    method InitTask(id: string)
      modifies this
      ensures logs == old(logs)[id := Rows([])]
    {
      logs := logs[id := Rows([])];
    }

    /** _append_log of the SSH deployer; nothing happens for a missing row. */
    method AppendLog(id: string, message: string)
      modifies this
      ensures logs == AppendTo(old(logs), id, message)
      ensures id !in old(logs) ==> logs == old(logs)
      ensures id in old(logs) && old(logs)[id] == Unreadable ==> logs == old(logs)[id := Rows([message])]
    {
      if id !in logs {
        return;
      }
      var lines := ReadColumn(logs[id]);
      assert [] + [message] == [message];
      lines := lines + [message];
      if |lines| > MAX_LINES {
        var head := lines[..HEAD_LINES];
        var tail := lines[|lines| - (MAX_LINES - HEAD_LINES - 1)..];
        lines := head + [MARKER] + tail;
      }
      logs := logs[id := Rows(lines)];
    }

    /** _append_log of the agent deployer. */
    method AppendLogSuffix(id: string, message: string)
      modifies this
      ensures logs == if id in old(logs)
                      then old(logs)[id := Rows(AppendSuffix(ReadColumn(old(logs)[id]), message))]
                      else old(logs)
      ensures id in old(logs) && old(logs)[id] == Unreadable ==> logs == old(logs)[id := Rows([message])]
    {
      if id !in logs {
        return;
      }
      assert [] + [message] == [message];
      var lines := ReadColumn(logs[id]) + [message];
      if |lines| > MAX_LINES {
        lines := lines[|lines| - MAX_LINES..];
      }
      logs := logs[id := Rows(lines)];
    }
  }

  function AppendTo(logs: map<string, Column>, id: string, message: string): map<string, Column> {
    if id in logs then logs[id := Rows(Append(ReadColumn(logs[id]), message))] else logs
  }

  // ---- What the stored log says about everything ever appended ----

  /** The view of a full history that the SSH deployer stores. */
  function View(history: seq<string>): seq<string> {
    if |history| <= MAX_LINES then history
    else history[..HEAD_LINES] + [MARKER] + Last(history, MAX_LINES - HEAD_LINES - 1)
  }

  /** Truncating again after each append never loses more than truncating once. */
  lemma AppendKeepsView(history: seq<string>, message: string)
    ensures Append(View(history), message) == View(history + [message])
  {
    var n := |history|;
    var more := history + [message];
    if n > MAX_LINES {
      var stored := View(history);
      var all := stored + [message];
      var tail := MAX_LINES - HEAD_LINES - 1;
      assert |all| == MAX_LINES + 1;
      assert all[..HEAD_LINES] == history[..HEAD_LINES] == more[..HEAD_LINES];
      assert Last(all, tail) == Last(history, tail)[1..] + [message];
      assert Last(more, tail) == Last(history, tail)[1..] + [message];
    }
  }

  /** A run: every append ever made to any task, in order. */
  datatype Entry = Entry(task: string, message: string)

  function History(run: seq<Entry>, id: string): seq<string> {
    if run == [] then []
    else
      var before := History(run[..|run| - 1], id);
      var e := run[|run| - 1];
      if e.task == id then before + [e.message] else before
  }

  function Table(run: seq<Entry>, tasks: set<string>): map<string, Column> {
    if run == [] then map id | id in tasks :: Rows([])
    else AppendTo(Table(run[..|run| - 1], tasks), run[|run| - 1].task, run[|run| - 1].message)
  }

  /** After any interleaving of appends, every task stores exactly the view of its own
      history, and appends to unknown tasks leave no trace. */
  lemma {:induction false} StoredLogIsView(run: seq<Entry>, tasks: set<string>)
    ensures Table(run, tasks).Keys == tasks
    ensures forall id :: id in tasks ==> Table(run, tasks)[id] == Rows(View(History(run, id)))
  {
    if run != [] {
      var before, e := run[..|run| - 1], run[|run| - 1];
      StoredLogIsView(before, tasks);
      AppendKeepsView(History(before, e.task), e.message);
    }
  }

  /** In numbers: up to 5000 lines all of them, and of more the first 200 and the last 4799
      with the marker between them. */
  lemma StoredLogInNumbers(run: seq<Entry>, tasks: set<string>, id: string)
    requires id in tasks
    ensures id in Table(run, tasks)
    ensures var h := History(run, id);
            Table(run, tasks)[id]
            == Rows(if |h| <= 5000 then h
                    else h[..200] + ["... [truncated due to log size limit] ..."] + h[|h| - 4799..])
  {
    StoredLogIsView(run, tasks);
  }

  function Count(lines: seq<string>, line: string): nat {
    multiset(lines)[line]
  }

  /** The stored log stays within the cap. Once anything was dropped it holds exactly one
      marker besides the messages it kept that are spelled like one, and none before. */
  lemma ViewIsBoundedAndMarkedOnce(history: seq<string>)
    ensures |View(history)| == if |history| <= MAX_LINES then |history| else MAX_LINES
    ensures |history| > MAX_LINES ==>
              Count(View(history), MARKER)
              == Count(history[..HEAD_LINES], MARKER) + 1 + Count(Last(history, MAX_LINES - HEAD_LINES - 1), MARKER)
    ensures |history| <= MAX_LINES ==> Count(View(history), MARKER) == Count(history, MARKER)
  {
    if |history| > MAX_LINES {
      CountAround(history[..HEAD_LINES], MARKER, Last(history, MAX_LINES - HEAD_LINES - 1));
    }
  }

  lemma CountAround<T>(a: seq<T>, x: T, b: seq<T>)
    ensures multiset(a + [x] + b)[x] == multiset(a)[x] + 1 + multiset(b)[x]
  {
    assert multiset(a + [x] + b) == multiset(a) + multiset{x} + multiset(b);
  }

  lemma LastSnoc<T>(s: seq<T>, x: T, n: nat)
    requires n > 0
    ensures Last(Last(s, n) + [x], n) == Last(s + [x], n)
  {
    if |s| >= n {
      assert Last(s, n) + [x] == s[|s| - n..] + [x];
      assert (s + [x])[|s| + 1 - n..] == s[|s| + 1 - n..] + [x];
    }
  }

  /** The agent deployer stores the last 5000 lines of the history instead. */
  lemma {:induction false} SuffixLogIsSuffix(history: seq<string>)
    ensures FoldSuffix(history) == Last(history, MAX_LINES)
  {
    if history != [] {
      var before, m := history[..|history| - 1], history[|history| - 1];
      SuffixLogIsSuffix(before);
      LastSnoc(before, m, MAX_LINES);
      assert history == before + [m];
    }
  }

  /** In numbers: the last 5000 lines, or all of fewer. */
  lemma SuffixInNumbers(history: seq<string>)
    ensures FoldSuffix(history) == if |history| <= 5000 then history else history[|history| - 5000..]
  {
    SuffixLogIsSuffix(history);
  }

  function FoldSuffix(history: seq<string>): seq<string> {
    if history == [] then []
    else AppendSuffix(FoldSuffix(history[..|history| - 1]), history[|history| - 1])
  }

  /** The two deployers store the same log exactly as long as nothing had to be dropped
      (for messages that are not spelled like the marker). */
  lemma DeployersAgreeIff(history: seq<string>)
    requires MARKER !in history
    ensures View(history) == FoldSuffix(history) <==> |history| <= MAX_LINES
  {
    SuffixLogIsSuffix(history);
    if |history| > MAX_LINES {
      assert View(history)[HEAD_LINES] == MARKER;
      assert Last(history, MAX_LINES)[HEAD_LINES] in history;
    }
  }
}
