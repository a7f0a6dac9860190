/** What every run of `RunAs.Execute` sends: the completion message exactly
    once and last whenever the loop ends, the running message exactly once
    after a successful start, one output chunk per callback observed while the
    handlers were attached, and nothing for an exception before the loop. */
module RunAsTrace {
  import opened Wrappers
  import opened Strings
  import opened RunAs

  /** How many messages of `trace` satisfy `p`. */
  function Count(trace: seq<Message>, p: Message -> bool): nat
    decreases |trace|
  {
    if trace == [] then 0 else (if p(trace[0]) then 1 else 0) + Count(trace[1..], p)
  }

  /** The output chunks of `trace`, in order. */
  function Chunks(trace: seq<Message>): seq<TaskOutput>
    decreases |trace|
  {
    if trace == [] then [] else (if trace[0].SendOutput? then [trace[0].chunk] else []) + Chunks(trace[1..])
  }

  predicate IsComplete(m: Message) { m.SendComplete? }
  predicate IsRunning(m: Message) { m.SendRunning? }

  lemma {:induction false} CountConcat(a: seq<Message>, b: seq<Message>, p: Message -> bool)
    ensures Count(a + b, p) == Count(a, p) + Count(b, p)
    decreases |a|
  {
    if a != [] {
      assert (a + b)[1..] == a[1..] + b;
      CountConcat(a[1..], b, p);
    } else {
      assert a + b == b;
    }
  }

  lemma {:induction false} ChunksConcat(a: seq<Message>, b: seq<Message>)
    ensures Chunks(a + b) == Chunks(a) + Chunks(b)
    decreases |a|
  {
    if a != [] {
      assert (a + b)[1..] == a[1..] + b;
      ChunksConcat(a[1..], b);
    } else {
      assert a + b == b;
    }
  }

  /** Output messages hold no running or completion message, and their chunks
      are the callbacks' chunks in order. */
  lemma {:induction false} OutputsOnlyChunks(id: TaskId, data: seq<Option<string>>)
    ensures Count(Outputs(id, data), IsComplete) == 0
    ensures Count(Outputs(id, data), IsRunning) == 0
    ensures Chunks(Outputs(id, data)) == seq(|data|, i requires 0 <= i < |data| => Chunk(id, data[i]))
    decreases |data|
  {
    if data != [] {
      var o := Outputs(id, data);
      assert o == [o[0]] + Outputs(id, data[1..]);
      CountConcat([o[0]], Outputs(id, data[1..]), IsComplete);
      CountConcat([o[0]], Outputs(id, data[1..]), IsRunning);
      ChunksConcat([o[0]], Outputs(id, data[1..]));
      OutputsOnlyChunks(id, data[1..]);
    }
  }

  /** `Execute` raises before its loop exactly when the arguments are too few,
      the account has no backslash, or the process does not start; it then
      sends nothing, so in particular no completion message. */
  lemma ExecuteFaults(task: DroneTask, script: Script)
    ensures Execute(task, script).outcome.Threw? <==>
      !(|task.arguments| >= 3 && DomainSeparator in task.arguments[0]) || !script.starts
    ensures Execute(task, script).outcome.Threw? ==> Execute(task, script).trace == []
    ensures Execute(task, script).start.Some? <==> Decompose(task.arguments).Success?
  {
  }

  /** The callbacks still sent after the loop: on a natural exit, those the
      script holds after the loop's last head; after a kill, none. */
  function Late(script: Script, r: Execution): seq<Option<string>> {
    if r.outcome == Exited && r.consumed <= |script.steps| then Delivered(script.steps[r.consumed..]) else []
  }

  /** The trace of a started run, assembled from the callbacks before the
      running message, those of the loop, the late ones, and whether the loop
      has ended. */
  function TraceOf(id: TaskId, early: seq<Option<string>>, loop: seq<Option<string>>,
                   late: seq<Option<string>>, ended: bool): seq<Message>
  {
    Outputs(id, early) + [SendRunning(id)] + Outputs(id, loop) + Outputs(id, late)
    + (if ended then [SendComplete(id)] else [])
  }

  /** A started run sends the early chunks, the running message, the chunks of
      the loop, the late chunks and, once the loop has ended, completion. */
  lemma TraceShape(task: DroneTask, script: Script)
    requires !Execute(task, script).outcome.Threw?
    ensures var r := Execute(task, script);
      r.trace == TraceOf(task.id, script.early, Delivered(script.steps[..r.consumed]), Late(script, r),
                         r.outcome != StillPolling)
  {
  }

  /** One more late callback adds its chunk just before completion. */
  lemma TraceOfOneMoreLate(id: TaskId, early: seq<Option<string>>, loop: seq<Option<string>>,
                           late: seq<Option<string>>, data: Option<string>)
    ensures var t := TraceOf(id, early, loop, late, true);
      TraceOf(id, early, loop, late + [data], true)
      == t[..|t| - 1] + [SendOutput(Chunk(id, data)), SendComplete(id)]
  {
    OutputsConcat(id, late, [data]);
    var prefix := Outputs(id, early) + [SendRunning(id)] + Outputs(id, loop) + Outputs(id, late);
    var t := TraceOf(id, early, loop, late, true);
    assert t == prefix + [SendComplete(id)];
    assert t[..|t| - 1] == prefix;
  }

  /** Whenever the loop ends, by exit or by cancellation, the completion
      message is sent exactly once and is the last message; while the loop is
      still polling and after an exception, none has been sent. */
  lemma CompleteSentOnceAndLast(task: DroneTask, script: Script)
    ensures var r := Execute(task, script);
      r.outcome in {Exited, Killed} ==>
        && Count(r.trace, IsComplete) == 1
        && r.trace[|r.trace| - 1] == SendComplete(task.id)
    ensures var r := Execute(task, script);
      r.outcome !in {Exited, Killed} ==> Count(r.trace, IsComplete) == 0
  {
    var r := Execute(task, script);
    if !r.outcome.Threw? {
      TraceShape(task, script);
      var early := Outputs(task.id, script.early);
      var loop := Outputs(task.id, Delivered(script.steps[..r.consumed]));
      var late := Outputs(task.id, Late(script, r));
      var tail: seq<Message> := if r.outcome == StillPolling then [] else [SendComplete(task.id)];
      OutputsOnlyChunks(task.id, script.early);
      OutputsOnlyChunks(task.id, Delivered(script.steps[..r.consumed]));
      OutputsOnlyChunks(task.id, Late(script, r));
      CountConcat(early, [SendRunning(task.id)], IsComplete);
      CountConcat(early + [SendRunning(task.id)], loop, IsComplete);
      CountConcat(early + [SendRunning(task.id)] + loop, late, IsComplete);
      CountConcat(early + [SendRunning(task.id)] + loop + late, tail, IsComplete);
    }
  }

  /** After a successful start the running message is sent exactly once, right
      after the callbacks that ran before it. */
  lemma RunningSentOnce(task: DroneTask, script: Script)
    ensures var r := Execute(task, script);
      !r.outcome.Threw? ==>
        && Count(r.trace, IsRunning) == 1
        && r.trace[|script.early|] == SendRunning(task.id)
    ensures var r := Execute(task, script);
      r.outcome.Threw? ==> Count(r.trace, IsRunning) == 0
  {
    var r := Execute(task, script);
    if !r.outcome.Threw? {
      TraceShape(task, script);
      var early := Outputs(task.id, script.early);
      var loop := Outputs(task.id, Delivered(script.steps[..r.consumed]));
      var late := Outputs(task.id, Late(script, r));
      var tail: seq<Message> := if r.outcome == StillPolling then [] else [SendComplete(task.id)];
      OutputsOnlyChunks(task.id, script.early);
      OutputsOnlyChunks(task.id, Delivered(script.steps[..r.consumed]));
      OutputsOnlyChunks(task.id, Late(script, r));
      CountConcat(early, [SendRunning(task.id)], IsRunning);
      CountConcat(early + [SendRunning(task.id)], loop, IsRunning);
      CountConcat(early + [SendRunning(task.id)] + loop, late, IsRunning);
      CountConcat(early + [SendRunning(task.id)] + loop + late, tail, IsRunning);
    }
  }

  /** The chunks of a started run's trace are those of its callbacks, in order. */
  lemma ChunksOfParts(id: TaskId, e: seq<Option<string>>, l: seq<Option<string>>, t: seq<Option<string>>,
                      tail: seq<Message>)
    requires tail == [] || tail == [SendComplete(id)]
    ensures Chunks(Outputs(id, e) + [SendRunning(id)] + Outputs(id, l) + Outputs(id, t) + tail)
         == Chunks(Outputs(id, e + l + t))
  {
    var early := Outputs(id, e);
    var loop := Outputs(id, l);
    var late := Outputs(id, t);
    ChunksConcat(early, [SendRunning(id)]);
    ChunksConcat(early + [SendRunning(id)], loop);
    ChunksConcat(early + [SendRunning(id)] + loop, late);
    ChunksConcat(early + [SendRunning(id)] + loop + late, tail);
    assert Chunks([SendRunning(id)]) == [];
    assert Chunks(tail) == [];
    OutputsConcat(id, e, l);
    OutputsConcat(id, e + l, t);
    ChunksConcat(early, loop);
    ChunksConcat(early + loop, late);
  }

  /** The output chunks sent are exactly one per callback that ran while the
      handlers were attached, in order: those before the running message,
      those up to the loop head that ended the loop, and, after a natural exit
      only, those after it. Each is reported as running and carries the line
      (empty for null data) plus a newline. */
  lemma OutputFaithful(task: DroneTask, script: Script)
    ensures var r := Execute(task, script);
      !r.outcome.Threw? ==>
        var data := script.early + Delivered(script.steps[..r.consumed]) + Late(script, r);
        && |Chunks(r.trace)| == |data|
        && forall i :: 0 <= i < |data| ==>
             Chunks(r.trace)[i] == TaskOutput(task.id, Tasks.Running, data[i].GetOr("") + NewLine)
  {
    var r := Execute(task, script);
    if !r.outcome.Threw? {
      TraceShape(task, script);
      var tail: seq<Message> := if r.outcome == StillPolling then [] else [SendComplete(task.id)];
      ChunksOfParts(task.id, script.early, Delivered(script.steps[..r.consumed]), Late(script, r), tail);
      OutputsOnlyChunks(task.id, script.early + Delivered(script.steps[..r.consumed]) + Late(script, r));
    }
  }

  /** On a natural exit no callback of the script is lost: every one of them,
      before or after the loop's last head, is sent. */
  lemma ExitSendsEveryCallback(task: DroneTask, script: Script)
    requires Execute(task, script).outcome == Exited
    ensures var r := Execute(task, script);
      script.early + Delivered(script.steps[..r.consumed]) + Late(script, r)
      == script.early + Delivered(script.steps)
  {
    var r := Execute(task, script);
    assert script.steps == script.steps[..r.consumed] + script.steps[r.consumed..];
    DeliveredConcat(script.steps[..r.consumed], script.steps[r.consumed..]);
  }

  /** After a successful start the loop ends exactly when some loop head sees
      the process exited or cancellation requested; it ends at the first such
      head, killing the process only if that head saw the process still alive. */
  lemma LoopEndsAtFirstStop(task: DroneTask, script: Script)
    requires Decompose(task.arguments).Success? && script.starts
    ensures var r := Execute(task, script);
      r.outcome in {Exited, Killed} <==> exists j :: 0 <= j < |script.steps| && Stops(script.steps[j])
    ensures var r := Execute(task, script);
      r.outcome in {Exited, Killed} ==>
        && 0 < r.consumed <= |script.steps|
        && Stops(script.steps[r.consumed - 1])
        && (forall j :: 0 <= j < r.consumed - 1 ==> !Stops(script.steps[j]))
        && (r.outcome == Killed <==> !script.steps[r.consumed - 1].hasExited)
  {
  }

  /** A loop that never sees a cancellation request never kills the process. */
  lemma NoKillWithoutCancel(task: DroneTask, script: Script)
    requires forall j :: 0 <= j < |script.steps| && script.steps[j].Poll? ==> !script.steps[j].cancelRequested
    ensures Execute(task, script).outcome != Killed
  {
  }

  /** Once the loop has ended, whatever the process does afterwards leaves
      the loop's result unchanged. */
  lemma {:induction false} PollLoopIgnoresLater(id: TaskId, steps: seq<Step>, more: seq<Step>)
    requires exists j :: 0 <= j < |steps| && Stops(steps[j])
    ensures PollLoop(id, steps + more) == PollLoop(id, steps)
    decreases |steps|
  {
    assert (steps + more)[0] == steps[0];
    if !Stops(steps[0]) {
      assert (steps + more)[1..] == steps[1..] + more;
      var j :| 0 <= j < |steps| && Stops(steps[j]);
      assert Stops(steps[1..][j - 1]);
      PollLoopIgnoresLater(id, steps[1..], more);
    }
  }

  /** After a kill the handlers were detached, so nothing the process does
      afterwards reaches the trace: later steps leave the run unchanged. */
  lemma LaterStepsIgnoredAfterKill(task: DroneTask, script: Script, more: seq<Step>)
    requires Execute(task, script).outcome == Killed
    ensures Execute(task, script.(steps := script.steps + more)) == Execute(task, script)
  {
    PollLoopIgnoresLater(task.id, script.steps, more);
  }

  /** One more callback after a natural exit leaves the loop's result alone
      and becomes one more late callback. */
  lemma LateGrowsByOne(task: DroneTask, script: Script, data: Option<string>)
    requires Execute(task, script).outcome == Exited
    ensures var r := Execute(task, script);
      var r' := Execute(task, script.(steps := script.steps + [Deliver(data)]));
      && r'.outcome == Exited && r'.consumed == r.consumed
      && Late(script.(steps := script.steps + [Deliver(data)]), r') == Late(script, r) + [data]
  {
    var r := Execute(task, script);
    var steps := script.steps;
    var steps' := steps + [Deliver(data)];
    PollLoopIgnoresLater(task.id, steps, [Deliver(data)]);
    var c := r.consumed;
    assert steps'[c..] == steps[c..] + [Deliver(data)];
    DeliveredConcat(steps[c..], [Deliver(data)]);
    assert Delivered([Deliver(data)]) == [data];
  }

  /** After a natural exit the handlers are still attached: one more callback
      in the script is sent as one more chunk just before completion, where
      after a kill it would send nothing. */
  lemma LateCallbackSentAfterExit(task: DroneTask, script: Script, data: Option<string>)
    requires Execute(task, script).outcome == Exited
    ensures var r := Execute(task, script);
      var r' := Execute(task, script.(steps := script.steps + [Deliver(data)]));
      && r'.outcome == Exited
      && r'.trace == r.trace[..|r.trace| - 1] + [SendOutput(Chunk(task.id, data)), SendComplete(task.id)]
  {
    var r := Execute(task, script);
    var script' := script.(steps := script.steps + [Deliver(data)]);
    var r' := Execute(task, script');
    LateGrowsByOne(task, script, data);
    var c := r.consumed;
    assert script'.steps[..c] == script.steps[..c];
    TraceShape(task, script);
    TraceShape(task, script');
    TraceOfOneMoreLate(task.id, script.early, Delivered(script.steps[..c]), Late(script, r), data);
  }

  /** The account of the scenarios below splits into its domain and user. */
  lemma AccountSplits()
    ensures Split("CORP\\svc-admin", DomainSeparator) == ["CORP", "svc-admin"]
  {
    SplitTwo("CORP", "svc-admin", DomainSeparator);
    assert "CORP\\svc-admin" == "CORP" + [DomainSeparator] + "svc-admin";
  }

  /** A domain-qualified account with exactly three arguments: the account is
      split at its backslash and the command line is empty. */
  lemma WhoamiArguments()
    ensures Decompose(["CORP\\svc-admin", "Sup3rSecret", "C:\\tools\\whoami.exe"])
         == Success(StartInfo("CORP", "svc-admin", "Sup3rSecret", "C:\\tools\\whoami.exe", ""))
  {
    AccountSplits();
  }

  /** An account `DOMAIN\USER` followed by a password and a program name
      decomposes into exactly those parts, with the remaining arguments as the
      command line. */
  lemma AccountDecomposition(domain: string, user: string, password: string, fileName: string, rest: seq<string>)
    requires DomainSeparator !in domain && DomainSeparator !in user
    ensures Decompose([domain + [DomainSeparator] + user, password, fileName] + rest)
         == Success(StartInfo(domain, user, password, fileName, Join(rest, " ")))
  {
    var args := [domain + [DomainSeparator] + user, password, fileName] + rest;
    SplitTwo(domain, user, DomainSeparator);
    assert args[3..] == rest;
  }

  /** A started process that prints one line and then exits yields running,
      that line, and completion. */
  lemma OneLineThenExit(task: DroneTask, line: Option<string>)
    requires Decompose(task.arguments).Success?
    ensures Execute(task, Script(true, [], [Deliver(line), Poll(false, false), Poll(true, false)])).trace
         == [SendRunning(task.id), SendOutput(Chunk(task.id, line)), SendComplete(task.id)]
  {
    var steps := [Deliver(line), Poll(false, false), Poll(true, false)];
    assert steps[1..] == [Poll(false, false), Poll(true, false)];
    assert steps[1..][1..] == [Poll(true, false)];
    assert PollLoop(task.id, steps[1..][1..]) == ([], Exited, 1);
    assert PollLoop(task.id, steps[1..]) == ([], Exited, 2);
    var rest := PollLoop(task.id, steps[1..]);
    assert PollLoop(task.id, steps) == ([SendOutput(Chunk(task.id, line))] + rest.0, rest.1, rest.2 + 1);
    assert [SendOutput(Chunk(task.id, line))] + [] == [SendOutput(Chunk(task.id, line))];
    assert Outputs(task.id, []) == [];
  }

  /** A cancellation seen on the second loop head, while the process is
      alive, kills it; the line the process would print afterwards is never
      sent, and completion follows the running message directly. */
  lemma CancelledOnSecondPoll(task: DroneTask, late: Option<string>)
    requires Decompose(task.arguments).Success?
    ensures var r := Execute(task, Script(true, [], [Poll(false, false), Poll(false, true), Deliver(late)]));
      && r.outcome == Killed
      && r.trace == [SendRunning(task.id), SendComplete(task.id)]
  {
    var steps := [Poll(false, false), Poll(false, true), Deliver(late)];
    assert steps[1..] == [Poll(false, true), Deliver(late)];
    assert PollLoop(task.id, steps[1..]) == ([], Killed, 1);
    assert PollLoop(task.id, steps) == ([], Killed, 2);
    assert Outputs(task.id, []) == [];
  }
}
