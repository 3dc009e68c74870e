/** The task queue and its single consumer. Requests put tasks on a bounded
    first-in-first-out queue without waiting; the consumer takes one task at a
    time, runs its script, and logs the outcome tagged with the task's
    delivery id. The child process is not modelled: its exit code and the text
    it wrote to standard error are inputs of a consumer step. */
module TaskHandler {
  import opened Models

  /** A script to run, with the delivery id it was requested under. */
  datatype Task = Task(script: Script, uuid: string)

  // ---------------------------------------------------------------------
  // The queue: capacity rule and first-in-first-out order

  /** A queue with a positive bound refuses new tasks once it holds that many;
      a bound of zero (or below) never does. */
  predicate IsFull(items: seq<Task>, maxsize: int)
  {
    maxsize > 0 && |items| >= maxsize
  }

  /** The queue's contents after a non-waiting put of `t`. */
  function AfterPut(items: seq<Task>, maxsize: int, t: Task): (r: seq<Task>)
    ensures IsFull(items, maxsize) ==> r == items
    ensures !IsFull(items, maxsize) ==> r == items + [t]
    ensures maxsize > 0 && |items| <= maxsize ==> |r| <= maxsize
  {
    if IsFull(items, maxsize) then items else items + [t]
  }

  /** `asyncio.Queue`: the waiting tasks in order, the bound, and the count of
      tasks put but not yet marked done. The ghost history records every task
      accepted and every task handed out, so that first-in-first-out order is
      part of the invariant. */
  class TaskQueue {
    var items: seq<Task>
    const maxsize: int
    var unfinished: nat
    ghost var accepted: seq<Task>
    ghost var served: seq<Task>
    ghost var completed: nat

    ghost predicate Valid()
      reads this
    {
      (maxsize > 0 ==> |items| <= maxsize) &&
      accepted == served + items &&
      completed <= |accepted| &&
      unfinished == |accepted| - completed
    }

    constructor (maxQueueLength: int)
      ensures Valid()
      ensures maxsize == maxQueueLength && items == [] && unfinished == 0
      ensures accepted == [] && served == [] && completed == 0
    {
      maxsize := maxQueueLength;
      items := [];
      unfinished := 0;
      accepted, served, completed := [], [], 0;
    }

    /** `put_nowait`: appends at the tail, or reports the queue full and
        changes nothing. */
    method PutNowait(t: Task) returns (ok: bool)
      requires Valid()
      modifies this
      ensures Valid()
      ensures ok <==> !IsFull(old(items), maxsize)
      ensures items == AfterPut(old(items), maxsize, t)
      ensures unfinished == if ok then old(unfinished) + 1 else old(unfinished)
      ensures accepted == if ok then old(accepted) + [t] else old(accepted)
      ensures served == old(served) && completed == old(completed)
    {
      if IsFull(items, maxsize) {
        ok := false;
      } else {
        items := items + [t];
        unfinished := unfinished + 1;
        accepted := accepted + [t];
        ok := true;
      }
    }

    /** `get` on a non-empty queue: removes and returns the head. (Waiting on
        an empty queue is scheduling, which is not modelled.) */
    method Get() returns (t: Task)
      requires Valid() && items != []
      modifies this
      ensures Valid()
      ensures t == old(items)[0] && items == old(items)[1..]
      ensures served == old(served) + [t]
      ensures unfinished == old(unfinished)
      ensures accepted == old(accepted) && completed == old(completed)
    {
      t := items[0];
      items := items[1..];
      served := served + [t];
    }

    /** `task_done`: one fewer unfinished task; refused (ValueError in the
        source) when no task is unfinished. */
    method TaskDone() returns (ok: bool)
      requires Valid()
      modifies this
      ensures Valid()
      ensures ok <==> old(unfinished) > 0
      ensures unfinished == if ok then old(unfinished) - 1 else old(unfinished)
      ensures completed == if ok then old(completed) + 1 else old(completed)
      ensures items == old(items) && accepted == old(accepted) && served == old(served)
    {
      if unfinished == 0 {
        ok := false;
      } else {
        unfinished := unfinished - 1;
        completed := completed + 1;
        ok := true;
      }
    }
  }

  /** A sequence of queue operations as producers and the consumer issue
      them. A `Get` on an empty queue would wait; in a trace it is skipped. */
  datatype QueueOp = Put(task: Task) | Get

  /** The result of replaying a trace: the tasks handed out, the tasks whose
      put succeeded, and the queue contents at the end. */
  datatype Replayed = Replayed(served: seq<Task>, accepted: seq<Task>, items: seq<Task>)

  function Replay(items: seq<Task>, maxsize: int, ops: seq<QueueOp>): Replayed
    decreases |ops|
  {
    if ops == [] then Replayed([], [], items)
    else match ops[0]
      case Put(t) =>
        var rest := Replay(AfterPut(items, maxsize, t), maxsize, ops[1..]);
        if IsFull(items, maxsize) then rest
        else rest.(accepted := [t] + rest.accepted)
      case Get =>
        if items == [] then Replay(items, maxsize, ops[1..])
        else
          var rest := Replay(items[1..], maxsize, ops[1..]);
          rest.(served := [items[0]] + rest.served)
  }

  /** First in, first out: whatever the interleaving of puts and gets, the
      tasks handed out followed by those still waiting are exactly the tasks
      that were waiting at the start followed by those accepted, in order. */
  lemma {:induction false} ReplayIsFifo(items: seq<Task>, maxsize: int, ops: seq<QueueOp>)
    ensures var r := Replay(items, maxsize, ops); r.served + r.items == items + r.accepted
    decreases |ops|
  {
    if ops != [] {
      match ops[0]
      case Put(t) =>
        ReplayIsFifo(AfterPut(items, maxsize, t), maxsize, ops[1..]);
        if !IsFull(items, maxsize) {
          var rest := Replay(items + [t], maxsize, ops[1..]);
          assert items + [t] + rest.accepted == items + ([t] + rest.accepted);
        }
      case Get =>
        if items == [] {
          ReplayIsFifo(items, maxsize, ops[1..]);
        } else {
          ReplayIsFifo(items[1..], maxsize, ops[1..]);
          var rest := Replay(items[1..], maxsize, ops[1..]);
          assert [items[0]] + rest.served + rest.items == [items[0]] + (rest.served + rest.items);
          assert [items[0]] + items[1..] == items;
        }
    }
  }

  /** With a positive bound, no trace takes the queue past its bound. */
  lemma {:induction false} ReplayWithinBound(items: seq<Task>, maxsize: int, ops: seq<QueueOp>)
    requires maxsize > 0 && |items| <= maxsize
    ensures |Replay(items, maxsize, ops).items| <= maxsize
    decreases |ops|
  {
    if ops != [] {
      match ops[0]
      case Put(t) =>
        ReplayWithinBound(AfterPut(items, maxsize, t), maxsize, ops[1..]);
      case Get =>
        if items == [] {
          ReplayWithinBound(items, maxsize, ops[1..]);
        } else {
          ReplayWithinBound(items[1..], maxsize, ops[1..]);
        }
    }
  }

  /** With a bound of zero, every put of a trace is accepted. */
  lemma {:induction false} ReplayUnboundedAcceptsAll(items: seq<Task>, ops: seq<QueueOp>)
    ensures Replay(items, 0, ops).accepted == Puts(ops)
    decreases |ops|
  {
    if ops != [] {
      match ops[0]
      case Put(t) =>
        ReplayUnboundedAcceptsAll(items + [t], ops[1..]);
      case Get =>
        if items == [] {
          ReplayUnboundedAcceptsAll(items, ops[1..]);
        } else {
          ReplayUnboundedAcceptsAll(items[1..], ops[1..]);
        }
    }
  }

  /** The tasks a trace tries to put, in order. */
  function Puts(ops: seq<QueueOp>): seq<Task>
  {
    if ops == [] then []
    else if ops[0].Put? then [ops[0].task] + Puts(ops[1..])
    else Puts(ops[1..])
  }

  // ---------------------------------------------------------------------
  // Text handling for standard error: `str.strip()` and `str.split("\n")`

  /** Python's `str.isspace` for one character. */
  predicate IsSpace(c: char)
  {
    c == ' ' || '\t' <= c <= '\r' || '\U{1C}' <= c <= '\U{1F}' ||
    c == '\U{85}' || c == '\U{A0}' || c == '\U{1680}' ||
    '\U{2000}' <= c <= '\U{200A}' || c == '\U{2028}' || c == '\U{2029}' ||
    c == '\U{202F}' || c == '\U{205F}' || c == '\U{3000}'
  }

  predicate AllSpace(s: string)
  {
    forall i | 0 <= i < |s| :: IsSpace(s[i])
  }

  function TrimStart(s: string): (r: string)
    ensures |r| <= |s| && r == s[|s| - |r|..]
    ensures AllSpace(s[..|s| - |r|])
    ensures r == [] || !IsSpace(r[0])
  {
    if s != [] && IsSpace(s[0]) then TrimStart(s[1..]) else s
  }

  function TrimEnd(s: string): (r: string)
    ensures |r| <= |s| && r == s[..|r|]
    ensures AllSpace(s[|r|..])
    ensures r == [] || !IsSpace(r[|r| - 1])
  {
    if s != [] && IsSpace(s[|s| - 1]) then TrimEnd(s[..|s| - 1]) else s
  }

  /** `str.strip()`: the text with leading and trailing whitespace removed. */
  function Strip(s: string): (r: string)
  {
    TrimEnd(TrimStart(s))
  }

  /** What `Strip` removes is whitespace, what it keeps is a contiguous part
      of the input that neither starts nor ends with whitespace. */
  lemma StripSpec(s: string) returns (i: nat, j: nat)
    ensures i <= j <= |s| && Strip(s) == s[i..j]
    ensures AllSpace(s[..i]) && AllSpace(s[j..])
    ensures i < j ==> !IsSpace(s[i]) && !IsSpace(s[j - 1])
  {
    var t := TrimStart(s);
    var r := TrimEnd(t);
    i := |s| - |t|;
    j := i + |r|;
    assert t == s[i..];
    assert r == t[..|r|];
    assert s[j..] == t[|r|..];
  }

  /** Whitespace-only text strips to nothing. */
  lemma StripAllSpace(s: string)
    requires AllSpace(s)
    ensures Strip(s) == ""
  {
  }

  /** Stripping is idempotent. */
  lemma StripIdempotent(s: string)
    ensures Strip(Strip(s)) == Strip(s)
  {
  }

  /** `str.split("\n")`: the pieces between newlines; the empty text gives
      one empty piece. */
  function SplitLines(s: string): (r: seq<string>)
    ensures |r| >= 1
    ensures forall k | 0 <= k < |r| :: '\n' !in r[k]
  {
    if s == [] then [""]
    else
      var rest := SplitLines(s[1..]);
      if s[0] == '\n' then [""] + rest
      else [[s[0]] + rest[0]] + rest[1..]
  }

  /** `"\n".join(parts)`. */
  function JoinLines(parts: seq<string>): string
    requires |parts| >= 1
  {
    if |parts| == 1 then parts[0] else parts[0] + "\n" + JoinLines(parts[1..])
  }

  /** Splitting loses nothing: joining the pieces gives back the text. */
  lemma {:induction false} JoinSplit(s: string)
    ensures JoinLines(SplitLines(s)) == s
  {
    if s != [] {
      var rest := SplitLines(s[1..]);
      JoinSplit(s[1..]);
      if s[0] == '\n' {
        assert SplitLines(s)[1..] == rest;
        assert s == [s[0]] + s[1..];
      } else {
        var parts := SplitLines(s);
        if |rest| == 1 {
          assert parts == [[s[0]] + rest[0]];
        } else {
          assert parts[1..] == rest[1..];
          assert JoinLines(rest) == rest[0] + "\n" + JoinLines(rest[1..]);
        }
        assert s == [s[0]] + s[1..];
      }
    }
  }

  /** Pieces without newlines are split back apart exactly. */
  lemma {:induction false} SplitJoin(parts: seq<string>)
    requires |parts| >= 1
    requires forall k | 0 <= k < |parts| :: '\n' !in parts[k]
    ensures SplitLines(JoinLines(parts)) == parts
  {
    if |parts| == 1 {
      SplitNoNewline(parts[0]);
    } else {
      SplitJoin(parts[1..]);
      SplitAfterNewline(parts[0], JoinLines(parts[1..]));
      assert [parts[0]] + parts[1..] == parts;
    }
  }

  lemma {:induction false} SplitNoNewline(s: string)
    requires '\n' !in s
    ensures SplitLines(s) == [s]
  {
    if s != [] {
      SplitNoNewline(s[1..]);
      assert [s[0]] + s[1..] == s;
    }
  }

  lemma {:induction false} SplitAfterNewline(line: string, tail: string)
    requires '\n' !in line
    ensures SplitLines(line + "\n" + tail) == [line] + SplitLines(tail)
  {
    if line == [] {
      assert line + "\n" + tail == "\n" + tail;
      assert ("\n" + tail)[1..] == tail;
    } else {
      var s := line + "\n" + tail;
      assert s[1..] == line[1..] + "\n" + tail;
      SplitAfterNewline(line[1..], tail);
      assert [line[0]] + line[1..] == line;
    }
  }

  // ---------------------------------------------------------------------
  // The consumer

  /** One log line of the consumer, tagged with the task's delivery id. */
  function Tag(uuid: string, message: string): string
  {
    "Task " + uuid + " - " + message
  }

  function TagAll(uuid: string, messages: seq<string>): (r: seq<string>)
    ensures |r| == |messages|
    ensures forall k | 0 <= k < |messages| :: r[k] == Tag(uuid, messages[k])
  {
    seq(|messages|, k requires 0 <= k < |messages| => Tag(uuid, messages[k]))
  }

  lemma TagAllSnoc(uuid: string, messages: seq<string>, m: string)
    ensures TagAll(uuid, messages + [m]) == TagAll(uuid, messages) + [Tag(uuid, m)]
  {
  }

  lemma TagAllConcat(uuid: string, a: seq<string>, b: seq<string>)
    ensures TagAll(uuid, a + b) == TagAll(uuid, a) + TagAll(uuid, b)
  {
  }

  /** The untagged messages of one consumer step: success, or failure with
      the details of `FailureMessages`. */
  function ConsumerMessages(returnCode: int, stderr: string): seq<string>
  {
    ["started processing"] +
    if returnCode == 0 then ["successfully completed"] else FailureMessages(stderr)
  }

  /** The messages of a failed run: the stripped standard error between two
      markers, one message per line. The markers are there whatever standard
      error holds, because it is always captured. */
  function FailureMessages(stderr: string): seq<string>
  {
    ["ended with an error!", "START OF ERROR:"] + SplitLines(Strip(stderr)) + ["END OF ERROR"]
  }

  function ConsumerLog(uuid: string, returnCode: int, stderr: string): seq<string>
  {
    TagAll(uuid, ConsumerMessages(returnCode, stderr))
  }

  /** `line` begins with the tag of task `uuid`. */
  predicate HasTag(uuid: string, line: string)
  {
    var tag := Tag(uuid, "");
    |tag| <= |line| && line[..|tag|] == tag
  }

  /** Every line of a consumer step carries the task's id. */
  lemma ConsumerLogTagged(uuid: string, returnCode: int, stderr: string)
    ensures forall line | line in ConsumerLog(uuid, returnCode, stderr) :: HasTag(uuid, line)
  {
  }

  /** A script that exits with 0 gives exactly two lines. */
  lemma ConsumerLogSuccess(uuid: string, stderr: string)
    ensures ConsumerLog(uuid, 0, stderr) ==
      [Tag(uuid, "started processing"), Tag(uuid, "successfully completed")]
  {
  }

  /** A failing script gives the error line, then standard error line by line
      between the two markers; joined, those lines are the stripped text. */
  lemma ConsumerLogFailure(uuid: string, returnCode: int, stderr: string)
    requires returnCode != 0
    ensures var log, lines := ConsumerLog(uuid, returnCode, stderr), SplitLines(Strip(stderr));
      |log| == |lines| + 4 &&
      log[0] == Tag(uuid, "started processing") &&
      log[1] == Tag(uuid, "ended with an error!") &&
      log[2] == Tag(uuid, "START OF ERROR:") &&
      (forall k | 0 <= k < |lines| :: log[k + 3] == Tag(uuid, lines[k])) &&
      log[|log| - 1] == Tag(uuid, "END OF ERROR")
    ensures JoinLines(SplitLines(Strip(stderr))) == Strip(stderr)
  {
    var lines := SplitLines(Strip(stderr));
    var messages := ConsumerMessages(returnCode, stderr);
    assert messages == ["started processing"] + FailureMessages(stderr);
    assert FailureMessages(stderr) == ["ended with an error!", "START OF ERROR:"] + lines + ["END OF ERROR"];
    assert |messages| == |lines| + 4;
    assert forall k | 0 <= k < |lines| :: messages[k + 3] == lines[k];
    JoinSplit(Strip(stderr));
  }

  /** A failing script with nothing but whitespace on standard error still
      logs both markers, with one empty line between them. */
  lemma ConsumerLogFailureQuiet(uuid: string, returnCode: int, stderr: string)
    requires returnCode != 0 && AllSpace(stderr)
    ensures ConsumerLog(uuid, returnCode, stderr) ==
      [Tag(uuid, "started processing"), Tag(uuid, "ended with an error!"),
       Tag(uuid, "START OF ERROR:"), Tag(uuid, ""), Tag(uuid, "END OF ERROR")]
  {
    StripAllSpace(stderr);
  }

  /** The consumer: the queue it drains and the log it writes. Only the
      consumer marks tasks done, each one after taking it from the queue. */
  class TaskHandler {
    const queue: TaskQueue
    var log: seq<string>

    ghost predicate Valid()
      reads this, queue
    {
      queue.Valid() && queue.completed <= |queue.served|
    }

    constructor (maxQueueLength: int)
      ensures Valid() && fresh(queue)
      ensures queue.maxsize == maxQueueLength && queue.items == [] && queue.unfinished == 0
      ensures log == []
    {
      queue := new TaskQueue(maxQueueLength);
      log := [];
    }

    /** Logs each line in turn, tagged with the task's id. */
    method LogLines(uuid: string, lines: seq<string>)
      modifies this
      ensures log == old(log) + TagAll(uuid, lines)
    {
      var i := 0;
      while i < |lines|
        invariant 0 <= i <= |lines|
        invariant log == old(log) + TagAll(uuid, lines[..i])
      {
        log := log + [Tag(uuid, lines[i])];
        TagAllSnoc(uuid, lines[..i], lines[i]);
        assert lines[..i + 1] == lines[..i] + [lines[i]];
        i := i + 1;
      }
      assert lines[..i] == lines;
    }

    /** The log lines of one task, written one by one as the task runs. */
    method LogRun(uuid: string, returnCode: int, stderr: string)
      modifies this
      ensures log == old(log) + ConsumerLog(uuid, returnCode, stderr)
    {
      log := log + [Tag(uuid, "started processing")];
      if returnCode == 0 {
        log := log + [Tag(uuid, "successfully completed")];
      } else {
        LogFailure(uuid, stderr);
      }
      TagAllConcat(uuid, ["started processing"],
                   if returnCode == 0 then ["successfully completed"] else FailureMessages(stderr));
    }

    /** The log lines of a task whose script failed: the error line, then
        standard error line by line between two markers. */
    method LogFailure(uuid: string, stderr: string)
      modifies this
      ensures log == old(log) + TagAll(uuid, FailureMessages(stderr))
    {
      log := log + [Tag(uuid, "ended with an error!"), Tag(uuid, "START OF ERROR:")];
      var lines := SplitLines(Strip(stderr));
      LogLines(uuid, lines);
      log := log + [Tag(uuid, "END OF ERROR")];
      TagAllConcat(uuid, ["ended with an error!", "START OF ERROR:"], lines);
      TagAllConcat(uuid, ["ended with an error!", "START OF ERROR:"] + lines, ["END OF ERROR"]);
    }

    /** One turn of the consumer loop: take the head task, run it (its exit
        code and standard error are given), log the outcome, and mark the
        task done. */
    method ConsumerStep(returnCode: int, stderr: string) returns (task: Task)
      requires Valid() && queue.items != []
      modifies this, queue
      ensures Valid()
      ensures task == old(queue.items)[0] && queue.items == old(queue.items)[1..]
      ensures queue.served == old(queue.served) + [task]
      ensures queue.completed == old(queue.completed) + 1
      ensures queue.unfinished == old(queue.unfinished) - 1
      ensures queue.accepted == old(queue.accepted)
      ensures log == old(log) + ConsumerLog(task.uuid, returnCode, stderr)
    {
      task := queue.Get();
      LogRun(task.uuid, returnCode, stderr);
      var done := queue.TaskDone();
      assert done;
    }
  }
}
