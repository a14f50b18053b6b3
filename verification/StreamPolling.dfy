/** A background push query whose rows a client polls: the shared stream record, and
    every interleaving of the worker, one poller and stop requests. */
module StreamPolling {
  import opened Wrappers

  type Row = seq<string>

  datatype Status = Running | Stopped | Failed | Done

  // ---- The record and its operations, each run alone ----

  /** One line of the query's output after JSON parsing; unparsable lines are `Other`. */
  datatype Line =
    | Header(columns: seq<string>, queryId: string)
    | ColumnNames(columns: seq<string>)
    | RowObject(row: Row)
    | FinalMessage
    | List(items: Row, allStrings: bool)
    | Other

  /** What the worker and the client share. */
  class StreamRecord {
    var columns: seq<string>
    var rows: seq<Row>
    var pollOffset: nat
    var status: Status
    var queryId: Option<string>
    var headerParsed: bool

    ghost predicate Valid()
      reads this
    {
      pollOffset <= |rows|
    }

    constructor ()
      ensures Valid() && rows == [] && pollOffset == 0 && status == Running && !headerParsed
    {
      columns, rows, pollOffset, status, queryId, headerParsed := [], [], 0, Running, None, false;
    }

    /** The worker's treatment of one line, once it has seen that the stream still runs. */
    method HandleLine(line: Line)
      requires Valid()
      modifies this
      ensures Valid() && pollOffset == old(pollOffset)
      ensures rows == old(rows) + (match line
                                   case RowObject(row) => [row]
                                   case List(items, strings) => if strings && !old(headerParsed) then [] else [items]
                                   case _ => [])
      ensures status == if line.FinalMessage? then Done else old(status)
      ensures headerParsed == (old(headerParsed) || line.Header? || line.ColumnNames? || (line.List? && line.allStrings))
      ensures columns == match line
                         case Header(cs, _) => cs
                         case ColumnNames(cs) => cs
                         case List(items, strings) => if strings && !old(headerParsed) then items else old(columns)
                         case _ => old(columns)
      ensures queryId == if line.Header? then Some(line.queryId) else old(queryId)
    {
      match line {
        case Header(cs, id) =>
          columns, queryId, headerParsed := cs, Some(id), true;
        case ColumnNames(cs) =>
          columns, headerParsed := cs, true;
        case RowObject(row) =>
          rows := rows + [row];
        case FinalMessage =>
          status := Done;
        case List(items, strings) =>
          if !headerParsed && strings {
            columns, headerParsed := items, true;
          } else {
            rows := rows + [items];
          }
        case Other =>
      }
    }

    /** poll_stream without interference: exactly the rows not handed out before. */
    method Poll() returns (newRows: seq<Row>, done: bool)
      requires Valid()
      modifies this`pollOffset
      ensures Valid() && pollOffset == |rows|
      ensures rows[..old(pollOffset)] + newRows == rows
      ensures done <==> status != Running
    {
      var offset := pollOffset;
      newRows := rows[offset..];
      pollOffset := |rows|;
      done := status == Done || status == Stopped || status == Failed;
    }

    method Stop() returns (total: nat)
      modifies this`status
      ensures status == Stopped && total == |rows|
    {
      status := Stopped;
      total := |rows|;
    }
  }

  // ---- Interleavings ----

  /** Where the worker thread is: about to look at the status, past that check with a line
      in hand, past its last status check, or finished. */
  datatype Worker = Checking | Handling | Closing | Ended

  /** Where the polling request is; after the commit it still reads the status it reports. */
  datatype Poller = Idle | HasOffset(offset: nat) | HasSlice(offset: nat, slice: seq<Row>) | Committed

  /** The shared record, both threads, and the history: rows handed to the client, the
      positions they were taken from, how many rows were skipped over, and whether the last
      finished poll reported the stream as done. */
  datatype State = State(rows: seq<Row>, offset: nat, status: Status, worker: Worker, poller: Poller,
                         delivered: seq<Row>, taken: seq<nat>, skipped: nat, toldDone: bool)

  datatype Action =
    | Check | AppendRow(row: Row) | SkipLine | Final | Exhausted | Close | Crash
    | StopRequest
    | ReadOffset | Slice | Commit | Report

  predicate IsPoll(a: Action) {
    a.ReadOffset? || a.Slice? || a.Commit? || a.Report?
  }

  const INITIAL := State([], 0, Running, Checking, Idle, [], [], 0, false)

  // An action that is not possible in a state leaves it unchanged.
  function Step(s: State, a: Action): State {
    match a
    case Check =>
      if s.worker.Checking? then s.(worker := if s.status == Running then Handling else Ended) else s
    case AppendRow(row) =>
      if s.worker.Handling? then s.(rows := s.rows + [row], worker := Checking) else s
    case SkipLine => if s.worker.Handling? then s.(worker := Checking) else s
    case Final => if s.worker.Handling? then s.(status := Done, worker := Ended) else s
    case Exhausted =>
      if s.worker.Checking? then s.(worker := if s.status == Running then Closing else Ended) else s
    case Close => if s.worker.Closing? then s.(status := Done, worker := Ended) else s
    case Crash => if s.worker.Ended? then s else s.(status := Failed, worker := Ended)
    case StopRequest => s.(status := Stopped)
    case ReadOffset => if s.poller.Idle? then s.(poller := HasOffset(s.offset)) else s
    case Slice =>
      if s.poller.HasOffset? && s.poller.offset <= |s.rows| then
        s.(poller := HasSlice(s.poller.offset, s.rows[s.poller.offset..]))
      else s
    case Commit =>
      if s.poller.HasSlice? then
        var o, k := s.poller.offset, |s.poller.slice|;
        s.(offset := |s.rows|, poller := Committed, delivered := s.delivered + s.poller.slice,
           taken := s.taken + seq(k, i => o + i),
           skipped := s.skipped + (if |s.rows| > o + k then |s.rows| - (o + k) else 0))
      else s
    case Report => if s.poller.Committed? then s.(poller := Idle, toldDone := s.status != Running) else s
  }

  function Run(s: State, actions: seq<Action>): State {
    if actions == [] then s else Step(Run(s, actions[..|actions| - 1]), actions[|actions| - 1])
  }

  // The poller holds the current offset and rows of the stream.
  ghost predicate PollerOk(s: State) {
    && s.offset <= |s.rows|
    && (s.poller.HasOffset? ==> s.poller.offset == s.offset)
    && (s.poller.HasSlice? ==> s.poller.offset == s.offset && s.offset + |s.poller.slice| <= |s.rows|
                               && s.poller.slice == s.rows[s.offset..s.offset + |s.poller.slice|])
  }

  // Rows were handed out from increasing positions below the offset.
  ghost predicate TakenOk(s: State) {
    && |s.taken| == |s.delivered|
    && (forall i :: 0 <= i < |s.taken| ==> s.taken[i] < s.offset <= |s.rows| && s.delivered[i] == s.rows[s.taken[i]])
    && (forall i, j :: 0 <= i < j < |s.taken| ==> s.taken[i] < s.taken[j])
  }

  // Every row below the offset was handed out or skipped.
  ghost predicate CountOk(s: State) {
    && |s.delivered| + s.skipped == s.offset <= |s.rows|
    && (s.skipped == 0 ==> s.delivered == s.rows[..s.offset])
  }

  // A worker only ends, and a poll only reports done, once the status has left running.
  predicate StatusOk(s: State) {
    (s.worker.Ended? || s.toldDone) ==> s.status != Running
  }

  ghost predicate Inv(s: State) {
    PollerOk(s) && TakenOk(s) && CountOk(s) && StatusOk(s)
  }

  lemma StepKeepsPoller(s: State, a: Action)
    requires PollerOk(s)
    ensures PollerOk(Step(s, a))
  {
    if a.Slice? && s.poller.HasOffset? {
      var slice := s.rows[s.offset..];
      assert slice == s.rows[s.offset..s.offset + |slice|];
    }
  }

  lemma StepKeepsTaken(s: State, a: Action)
    requires PollerOk(s) && TakenOk(s)
    ensures TakenOk(Step(s, a))
  {
    if a.Commit? && s.poller.HasSlice? {
      PositionsExtend(s.rows, s.delivered, s.taken, s.offset, s.poller.slice);
    }
  }

  lemma StepKeepsCount(s: State, a: Action)
    requires PollerOk(s) && CountOk(s)
    ensures CountOk(Step(s, a))
  {
    if a.AppendRow? && s.worker.Handling? {
      assert (s.rows + [a.row])[..s.offset] == s.rows[..s.offset];
    } else if a.Commit? && s.poller.HasSlice? {
      assert s.rows[..s.offset] + s.rows[s.offset..] == s.rows == s.rows[..|s.rows|];
    }
  }

  lemma StepKeepsStatus(s: State, a: Action)
    requires StatusOk(s)
    ensures StatusOk(Step(s, a))
  {
  }

  // Appending consecutive positions from `o` on keeps the positions increasing and right.
  lemma PositionsExtend(rows: seq<Row>, delivered: seq<Row>, taken: seq<nat>, o: nat, slice: seq<Row>)
    requires |taken| == |delivered| && o + |slice| <= |rows| && slice == rows[o..o + |slice|]
    requires forall i :: 0 <= i < |taken| ==> taken[i] < o && delivered[i] == rows[taken[i]]
    requires forall i, j :: 0 <= i < j < |taken| ==> taken[i] < taken[j]
    ensures var d, t := delivered + slice, taken + seq(|slice|, i => o + i);
            && (forall i :: 0 <= i < |t| ==> t[i] < o + |slice| && d[i] == rows[t[i]])
            && (forall i, j :: 0 <= i < j < |t| ==> t[i] < t[j])
  {
    var n := |taken|;
    var d, t := delivered + slice, taken + seq(|slice|, i => o + i);
    forall i | 0 <= i < |t| ensures t[i] < o + |slice| && d[i] == rows[t[i]] && (i >= n ==> t[i] == o + (i - n)) {
      if i < n {
        assert t[i] == taken[i] && d[i] == delivered[i];
      } else {
        assert d[i] == slice[i - n] == rows[o + (i - n)];
      }
    }
    assert forall i :: 0 <= i < n ==> t[i] == taken[i];
  }

  lemma {:induction false} RunKeepsInv(actions: seq<Action>)
    ensures Inv(Run(INITIAL, actions))
  {
    if actions != [] {
      var s, a := Run(INITIAL, actions[..|actions| - 1]), actions[|actions| - 1];
      RunKeepsInv(actions[..|actions| - 1]);
      StepKeepsPoller(s, a);
      StepKeepsTaken(s, a);
      StepKeepsCount(s, a);
      StepKeepsStatus(s, a);
    }
  }

  /** Whatever the interleaving, the concatenated polls are rows of the stream at strictly
      increasing positions: no duplicate, no reordering, nothing invented. What they lack is
      counted by `skipped`, and they are the prefix up to the offset exactly when that is zero. */
  lemma PollsAreSubsequence(actions: seq<Action>)
    ensures var s := Run(INITIAL, actions);
            && |s.taken| == |s.delivered|
            && (forall i :: 0 <= i < |s.taken| ==> s.taken[i] < |s.rows| && s.delivered[i] == s.rows[s.taken[i]])
            && (forall i, j :: 0 <= i < j < |s.taken| ==> s.taken[i] < s.taken[j])
            && |s.delivered| + s.skipped == s.offset <= |s.rows|
            && (s.delivered == s.rows[..s.offset] <==> s.skipped == 0)
  {
    RunKeepsInv(actions);
  }

  // A row that arrives between the slice and the commit of a poll.
  predicate InWindow(s: State, a: Action) {
    a.AppendRow? && s.worker.Handling? && s.poller.HasSlice?
  }

  /** Rows appended in a run between the slice and the commit of a poll. */
  function AppendedInWindow(actions: seq<Action>): nat {
    if actions == [] then 0
    else
      AppendedInWindow(actions[..|actions| - 1])
      + (if InWindow(Run(INITIAL, actions[..|actions| - 1]), actions[|actions| - 1]) then 1 else 0)
  }

  // Rows skipped so far and rows the poll under way will skip.
  function Missed(s: State): int {
    s.skipped + (if s.poller.HasSlice? then |s.rows| - (s.offset + |s.poller.slice|) else 0)
  }

  lemma StepMisses(s: State, a: Action)
    requires PollerOk(s)
    ensures Missed(Step(s, a)) == Missed(s) + (if InWindow(s, a) then 1 else 0)
  {
  }

  lemma {:induction false} SkippedAreWindowAppends(actions: seq<Action>)
    ensures AppendedInWindow(actions) == Missed(Run(INITIAL, actions))
  {
    if actions != [] {
      var before := actions[..|actions| - 1];
      SkippedAreWindowAppends(before);
      RunKeepsInv(before);
      StepMisses(Run(INITIAL, before), actions[|actions| - 1]);
    }
  }

  /** At rest, the client has exactly the rows up to the offset if and only if no row was
      appended between the slice and the commit of any poll. */
  lemma PrefixIffNoAppendInWindow(actions: seq<Action>)
    requires !Run(INITIAL, actions).poller.HasSlice?
    ensures var s := Run(INITIAL, actions);
            s.offset <= |s.rows| && (s.delivered == s.rows[..s.offset] <==> AppendedInWindow(actions) == 0)
  {
    PollsAreSubsequence(actions);
    SkippedAreWindowAppends(actions);
  }

  /** One run that loses a row: it is appended after the slice was taken. */
  lemma LostRow(row: Row)
    ensures var s := Step(Step(Step(Step(Step(INITIAL, Check), ReadOffset), Slice), AppendRow(row)), Commit);
            s.rows == [row] && s.delivered == [] && s.offset == 1
  {
    var none: seq<Row> := [];
    assert none[0..] == none && none + [row] == [row];
  }

  /** A stream that left the running state never runs again, and a finished worker adds nothing. */
  lemma {:induction false} NeverRunsAgain(s: State, actions: seq<Action>)
    ensures s.status != Running ==> Run(s, actions).status != Running
    ensures s.worker.Ended? ==> Run(s, actions).worker.Ended? && Run(s, actions).rows == s.rows
    ensures s.rows <= Run(s, actions).rows
  {
    if actions != [] {
      NeverRunsAgain(s, actions[..|actions| - 1]);
    }
  }

  /** What changes the status: a stop request always, a crash of a worker that has not ended,
      and the final message or the end of the output. */
  lemma StatusChanges(s: State)
    ensures Step(s, StopRequest).status == Stopped
    ensures !s.worker.Ended? ==> Step(s, Crash).status == Failed && Step(s, Crash).worker.Ended?
    ensures s.worker.Handling? ==> Step(s, Final).status == Done && Step(s, Final).worker.Ended?
    ensures s.worker.Closing? ==> Step(s, Close).status == Done && Step(s, Close).worker.Ended?
    ensures s.worker.Ended? ==> forall a :: a != StopRequest ==> Step(s, a).status == s.status
  {
  }

  lemma CrashedLast(actions: seq<Action>)
    requires actions != []
    ensures var front, last := actions[..|actions| - 1], actions[|actions| - 1];
            Crashed(actions) <==> Crashed(front) || (last == Crash && !Run(INITIAL, front).worker.Ended?)
  {
    var front := actions[..|actions| - 1];
    assert forall i :: 0 <= i < |front| ==> actions[..i] == front[..i] && actions[i] == front[i];
  }

  lemma StepWithoutStop(s: State, a: Action)
    requires a != StopRequest && s.status != Stopped && (s.status == Running <==> !s.worker.Ended?)
    ensures var t := Step(s, a);
            && t.status != Stopped && (t.status == Running <==> !t.worker.Ended?)
            && (t.status == Failed <==> s.status == Failed || (a == Crash && !s.worker.Ended?))
  {
  }

  /** A stream that is not stopped runs until its worker ends; then it has failed if its worker
      crashed at work, and is done otherwise. */
  lemma {:induction false} EndsDone(actions: seq<Action>)
    requires forall i :: 0 <= i < |actions| ==> actions[i] != StopRequest
    ensures var s := Run(INITIAL, actions);
            && (s.status == Running <==> !s.worker.Ended?)
            && (s.status == Failed <==> Crashed(actions)) && s.status != Stopped
  {
    if actions != [] {
      EndsDone(actions[..|actions| - 1]);
      CrashedLast(actions);
      StepWithoutStop(Run(INITIAL, actions[..|actions| - 1]), actions[|actions| - 1]);
    }
  }

  predicate Crashed(actions: seq<Action>) {
    exists i :: 0 <= i < |actions| && actions[i] == Crash && !Run(INITIAL, actions[..i]).worker.Ended?
  }


  lemma {:induction false} OthersLeavePoller(s: State, actions: seq<Action>)
    requires forall a :: a in actions ==> !IsPoll(a)
    ensures var t := Run(s, actions);
            && t.poller == s.poller && t.offset == s.offset && t.delivered == s.delivered
            && t.skipped == s.skipped && t.toldDone == s.toldDone
  {
    if actions != [] {
      OthersLeavePoller(s, actions[..|actions| - 1]);
      assert actions[|actions| - 1] in actions;
    }
  }

  /** The first whole poll after the worker has ended hands out everything that is left and
      reports the stream as done, whatever else happens in between. */
  lemma PollAfterEndIsComplete(actions: seq<Action>, first: seq<Action>, second: seq<Action>)
    requires var s := Run(INITIAL, actions); s.worker.Ended? && s.poller.Idle?
    requires forall a :: a in first + second ==> !IsPoll(a)
    ensures var s := Run(INITIAL, actions);
            var t := Step(Step(Run(Step(Run(Step(s, ReadOffset), first), Slice), second), Commit), Report);
            && t.rows == s.rows && t.offset == |t.rows| && t.skipped == s.skipped && t.toldDone
            && s.offset <= |s.rows| && t.delivered == s.delivered + s.rows[s.offset..]
            && (s.skipped == 0 ==> t.delivered == t.rows)
  {
    RunKeepsInv(actions);
    var s := Run(INITIAL, actions);
    var s1 := Step(s, ReadOffset);
    var s2 := Run(s1, first);
    assert forall a :: a in first || a in second ==> a in first + second;
    OthersLeavePoller(s1, first);
    NeverRunsAgain(s1, first);
    var s3 := Step(s2, Slice);
    OthersLeavePoller(s3, second);
    NeverRunsAgain(s3, second);
    assert s.rows[..s.offset] + s.rows[s.offset..] == s.rows;
  }

  // ---- A client that stops when it is told the stream is done ----

  /** Rows appended in a run since the last commit of a poll. */
  function AppendedSinceCommit(actions: seq<Action>): nat {
    if actions == [] then 0
    else
      var before, a := Run(INITIAL, actions[..|actions| - 1]), actions[|actions| - 1];
      if a.Commit? && before.poller.HasSlice? then 0
      else AppendedSinceCommit(actions[..|actions| - 1]) + (if a.AppendRow? && before.worker.Handling? then 1 else 0)
  }

  lemma {:induction false} WaitingRows(actions: seq<Action>)
    ensures var s := Run(INITIAL, actions); s.offset + AppendedSinceCommit(actions) == |s.rows|
  {
    if actions != [] {
      WaitingRows(actions[..|actions| - 1]);
    }
  }

  /** Between polls the client has every row if and only if none was appended between the
      slice and the commit of a poll, and none since the last commit. */
  lemma CompleteIff(actions: seq<Action>)
    requires !Run(INITIAL, actions).poller.HasSlice?
    ensures var s := Run(INITIAL, actions);
            s.delivered == s.rows <==> AppendedInWindow(actions) == 0 && AppendedSinceCommit(actions) == 0
  {
    RunKeepsInv(actions);
    SkippedAreWindowAppends(actions);
    WaitingRows(actions);
    var s := Run(INITIAL, actions);
    assert s.rows[..|s.rows|] == s.rows;
  }

  // A line the worker holds can still become a row.
  function InHand(s: State): nat {
    if s.worker.Handling? then 1 else 0
  }

  lemma {:induction false} AtMostOneMore(s: State, actions: seq<Action>)
    requires s.status != Running
    ensures |Run(s, actions).rows| + InHand(Run(s, actions)) <= |s.rows| + InHand(s)
  {
    if actions != [] {
      AtMostOneMore(s, actions[..|actions| - 1]);
      NeverRunsAgain(s, actions[..|actions| - 1]);
    }
  }

  lemma RunLast(s: State, actions: seq<Action>, last: Action)
    ensures Run(s, actions + [last]) == Step(Run(s, actions), last)
  {
    assert (actions + [last])[..|actions|] == actions;
  }

  lemma {:induction false} RunConcat(s: State, first: seq<Action>, second: seq<Action>)
    ensures Run(s, first + second) == Run(Run(s, first), second)
  {
    if second == [] {
      assert first + second == first;
    } else {
      var front, last := second[..|second| - 1], second[|second| - 1];
      RunConcat(s, first, front);
      RunLast(s, first + front, last);
      assert first + second == first + front + [last];
    }
  }

  /** A client that stops polling once a poll reports the stream as done has, when everything
      has settled, every row if and only if no row came between a slice and its commit and
      none after the last commit; and after such a report at most one row still comes, the
      line that was in the worker's hands. */
  lemma DoneClientIff(actions: seq<Action>, more: seq<Action>)
    requires var s := Run(INITIAL, actions); s.poller.Idle? && s.toldDone
    requires forall a :: a in more ==> !IsPoll(a)
    ensures var s, t := Run(INITIAL, actions), Run(INITIAL, actions + more);
            && t.delivered == s.delivered
            && |t.rows| <= |s.rows| + InHand(s)
            && (t.delivered == t.rows
                <==> AppendedInWindow(actions + more) == 0 && AppendedSinceCommit(actions + more) == 0)
  {
    var s := Run(INITIAL, actions);
    RunKeepsInv(actions);
    RunConcat(INITIAL, actions, more);
    OthersLeavePoller(s, more);
    AtMostOneMore(s, more);
    CompleteIff(actions + more);
  }

  /** A stop request while the worker holds a line: the client is told the stream is done,
      and the row that still comes is one it never asks for. */
  lemma StoppedTooEarly(row: Row)
    ensures var s := Step(Step(Step(Step(Step(Step(INITIAL, Check), StopRequest), ReadOffset), Slice), Commit), Report);
            s.toldDone && s.delivered == [] && Step(s, AppendRow(row)).rows == [row]
  {
    var none: seq<Row> := [];
    assert none[0..] == none && none + none == none && none + [row] == [row];
  }
}
