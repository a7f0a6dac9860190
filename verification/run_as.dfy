/** The drone's `RunAs` command: decompose the task's arguments into process
    start information, start the process as another user, stream its output,
    poll for exit or cancellation, and report completion. The process and the
    cancellation token are given as a script of what the executor observes. */
module RunAs {
  import opened Wrappers
  import Tasks
  import opened Strings

  /** The opcode this command answers to. */
  const Command: Tasks.byte := 0x3C
  /** The command runs on its own thread. */
  const Threaded: bool := true

  /** The opcode is 0x3C, one byte wide. */
  lemma CommandOpcode()
    ensures Command as int == 60 && 0 <= Command as int < 256
  {
  }

  /** The executor runs this command off the drone's main loop. */
  lemma CommandIsThreaded()
    ensures Threaded
  {
  }

  /** `Environment.NewLine` on the Windows hosts this command targets. */
  const NewLine: string := "\r\n"
  /** Separator between the domain and the user name in the first argument. */
  const DomainSeparator: char := '\\'

  type TaskId = Tasks.TaskId

  /** The decoded task as the drone receives it. */
  datatype DroneTask = DroneTask(id: TaskId, command: Tasks.byte, arguments: seq<string>, artefact: Option<seq<Tasks.byte>>)

  /** What the process is started with. */
  datatype StartInfo = StartInfo(domain: string, userName: string, password: string, fileName: string, arguments: string)

  /** The exceptions that end `Execute` before its loop: an index past the end
      of the argument list or of the split account name, or a process that
      could not be started. */
  datatype Fault = MissingArgument(index: nat) | MissingUserName | StartFailed

  /** One output chunk reported for a task. */
  datatype TaskOutput = TaskOutput(taskId: TaskId, status: Tasks.TaskStatus, output: string)

  /** A message the drone sends to the server about a task. */
  datatype Message = SendRunning(taskId: TaskId) | SendOutput(chunk: TaskOutput) | SendComplete(taskId: TaskId)

  /** One event seen by the executor after the running message: an output
      callback (stdout or stderr; `None` is the null data raised when a stream
      closes), or one head of the poll loop observing whether the process has
      exited and whether cancellation has been requested. */
  datatype Step = Deliver(data: Option<string>) | Poll(hasExited: bool, cancelRequested: bool)

  /** How the process behaves: whether it starts, the output callbacks that
      run between its start and the running message, and the steps after. */
  datatype Script = Script(starts: bool, early: seq<Option<string>>, steps: seq<Step>)

  /** How a run of `Execute` ends: by an exception before the loop, by the
      process exiting, by cancellation and a kill, or not yet (the script ran
      out while the loop was still polling). */
  datatype Outcome = Threw(fault: Fault) | Exited | Killed | StillPolling

  /** A run of `Execute`: what it started the process with, the messages it
      sent, how it ended, and how many script steps it consumed. */
  datatype Execution = Execution(start: Option<StartInfo>, trace: seq<Message>, outcome: Outcome, consumed: nat)

  /** The account, credentials, program and command line from the task's
      arguments, evaluated in the source's order so that the first failing
      index is the one reported. The account is split on every backslash;
      pieces after the second are ignored. */
  function Decompose(args: seq<string>): (r: Result<StartInfo, Fault>)
    ensures r.Success? <==> |args| >= 3 && DomainSeparator in args[0]
    ensures |args| == 0 ==> r == Failure(MissingArgument(0))
    ensures |args| > 0 && DomainSeparator !in args[0] ==> r == Failure(MissingUserName)
    ensures |args| > 0 && DomainSeparator in args[0] && |args| < 3 ==> r == Failure(MissingArgument(|args|))
    ensures r.Success? ==>
      && DomainSeparator !in r.value.domain
      && DomainSeparator !in r.value.userName
      && r.value.domain + [DomainSeparator] + r.value.userName <= args[0]
      && (|args[0]| == |r.value.domain| + 1 + |r.value.userName|
          || args[0][|r.value.domain| + 1 + |r.value.userName|] == DomainSeparator)
    ensures r.Success? ==> r.value.password == args[1] && r.value.fileName == args[2]
    ensures r.Success? ==> r.value.arguments == Join(args[3..], " ")
    ensures r.Success? && |args| == 3 ==> r.value.arguments == ""
  {
    if |args| == 0 then Failure(MissingArgument(0))
    else
      var split := Split(args[0], DomainSeparator);
      if |split| < 2 then Failure(MissingUserName)
      else if |args| < 2 then Failure(MissingArgument(1))
      else if |args| < 3 then Failure(MissingArgument(2))
      else
        AccountPrefix(args[0], DomainSeparator);
        Success(StartInfo(split[0], split[1], args[1], args[2], Join(args[3..], " ")))
  }

  /** The first two pieces of a split, with the separator between them, begin
      the string, and are followed by nothing or by another separator. */
  lemma AccountPrefix(s: string, sep: char)
    requires |Split(s, sep)| >= 2
    ensures var p := Split(s, sep);
      && p[0] + [sep] + p[1] <= s
      && (|s| == |p[0]| + 1 + |p[1]| || s[|p[0]| + 1 + |p[1]|] == sep)
  {
    var p := Split(s, sep);
    JoinSplit(s, sep);
    assert Join(p, [sep]) == p[0] + [sep] + Join(p[1..], [sep]);
    if |p| > 2 {
      assert Join(p[1..], [sep]) == p[1] + [sep] + Join(p[2..], [sep]);
      assert s == (p[0] + [sep] + p[1]) + ([sep] + Join(p[2..], [sep]));
    } else {
      assert s == p[0] + [sep] + p[1];
    }
  }

  /** The output chunk for one callback: the line, or nothing for null data,
      followed by a newline, reported as still running. */
  function Chunk(id: TaskId, data: Option<string>): (c: TaskOutput)
    ensures c.taskId == id && c.status == Tasks.Running
  {
    TaskOutput(id, Tasks.Running, data.GetOr("") + NewLine)
  }

  /** A chunk's text ends in a newline, and dropping that newline gives back
      the callback's line, or nothing for null data. */
  lemma ChunkCarriesLine(id: TaskId, data: Option<string>)
    ensures var out := Chunk(id, data).output;
      && |out| >= |NewLine|
      && out[|out| - |NewLine|..] == NewLine
      && (data.Some? ==> out[..|out| - |NewLine|] == data.value)
      && (data.None? ==> out == NewLine)
  {
  }

  /** One output message per callback, in order. */
  function Outputs(id: TaskId, data: seq<Option<string>>): seq<Message> {
    seq(|data|, i requires 0 <= i < |data| => SendOutput(Chunk(id, data[i])))
  }

  /** Outputs of consecutive callbacks are consecutive. */
  lemma OutputsConcat(id: TaskId, a: seq<Option<string>>, b: seq<Option<string>>)
    ensures Outputs(id, a + b) == Outputs(id, a) + Outputs(id, b)
  {
  }

  /** The task a message is about. */
  function About(m: Message): TaskId {
    match m
    case SendRunning(id) => id
    case SendOutput(chunk) => chunk.taskId
    case SendComplete(id) => id
  }

  /** The data of the output callbacks among `steps`, in order. */
  function Delivered(steps: seq<Step>): seq<Option<string>>
    decreases |steps|
  {
    if steps == [] then []
    else (if steps[0].Deliver? then [steps[0].data] else []) + Delivered(steps[1..])
  }

  /** A loop head that ends the loop. */
  predicate Stops(step: Step) {
    step.Poll? && (step.hasExited || step.cancelRequested)
  }

  /** The poll loop from its current head on. Callbacks keep reporting output
      while the handlers are attached; a head that sees the process exited
      leaves the loop; otherwise a head that sees cancellation detaches both
      handlers, kills the process and leaves; otherwise the loop sleeps and
      polls again. Returns the messages sent, how the loop ended and how many
      steps it consumed. */
  function PollLoop(id: TaskId, steps: seq<Step>): (r: (seq<Message>, Outcome, nat))
    ensures r.1 in {Exited, Killed, StillPolling}
    ensures r.2 <= |steps|
    ensures r.1 == StillPolling <==> forall j :: 0 <= j < |steps| ==> !Stops(steps[j])
    ensures r.1 == StillPolling ==> r.2 == |steps|
    ensures r.1 != StillPolling ==>
      && 0 < r.2
      && Stops(steps[r.2 - 1])
      && (forall j :: 0 <= j < r.2 - 1 ==> !Stops(steps[j]))
    ensures r.1 == Exited ==> steps[r.2 - 1] == Poll(true, steps[r.2 - 1].cancelRequested)
    ensures r.1 == Killed ==> steps[r.2 - 1] == Poll(false, true)
    ensures r.0 == Outputs(id, Delivered(steps[..r.2]))
    decreases |steps|
  {
    if steps == [] then ([], StillPolling, 0)
    else
      assert Delivered(steps[..1]) == Delivered([steps[0]]) by { assert steps[..1] == [steps[0]]; }
      match steps[0]
      case Deliver(data) =>
        var rest := PollLoop(id, steps[1..]);
        DeliveredPrefix(steps, rest.2);
        OutputsConcat(id, [data], Delivered(steps[1..][..rest.2]));
        ([SendOutput(Chunk(id, data))] + rest.0, rest.1, rest.2 + 1)
      case Poll(hasExited, cancelRequested) =>
        if hasExited then ([], Exited, 1)
        else if cancelRequested then ([], Killed, 1)
        else
          var rest := PollLoop(id, steps[1..]);
          DeliveredPrefix(steps, rest.2);
          assert [] + Delivered(steps[1..][..rest.2]) == Delivered(steps[1..][..rest.2]);
          (rest.0, rest.1, rest.2 + 1)
  }

  /** The callbacks of consecutive step sequences are consecutive. */
  lemma {:induction false} DeliveredConcat(a: seq<Step>, b: seq<Step>)
    ensures Delivered(a + b) == Delivered(a) + Delivered(b)
    decreases |a|
  {
    if a == [] {
      assert a + b == b;
    } else {
      var head: seq<Option<string>> := if a[0].Deliver? then [a[0].data] else [];
      assert (a + b)[0] == a[0];
      assert (a + b)[1..] == a[1..] + b;
      DeliveredConcat(a[1..], b);
      assert Delivered(a + b) == head + (Delivered(a[1..]) + Delivered(b));
      assert Delivered(a) == head + Delivered(a[1..]);
    }
  }

  /** `Delivered` of a prefix one step longer than a prefix of the tail. */
  lemma DeliveredPrefix(steps: seq<Step>, k: nat)
    requires 0 < |steps| && k < |steps|
    ensures Delivered(steps[..k + 1])
         == (if steps[0].Deliver? then [steps[0].data] else []) + Delivered(steps[1..][..k])
  {
    assert steps[..k + 1][1..] == steps[1..][..k];
  }

  /** `RunAs.Execute`: the whole run of the command against a script. An
      exception before the loop sends nothing at all, not even the completion
      message, since no `finally` guards it. After a natural exit the handlers
      are still attached, so callbacks in the script after the loop's last
      head are still sent, before the completion message; after a kill they
      were detached first, and those callbacks send nothing. */
  function Execute(task: DroneTask, script: Script): (r: Execution)
    ensures r.outcome.Threw? <==> Decompose(task.arguments).Failure? || !script.starts
    ensures r.start.Some? <==> Decompose(task.arguments).Success?
    ensures r.start.Some? ==> r.start.value == Decompose(task.arguments).value
    ensures r.outcome.Threw? ==> r.trace == [] && r.consumed == 0
    ensures r.consumed <= |script.steps|
    ensures !r.outcome.Threw? ==>
      && |script.early| < |r.trace|
      && r.trace[..|script.early|] == Outputs(task.id, script.early)
      && r.trace[|script.early|] == SendRunning(task.id)
    ensures r.outcome in {Exited, Killed} ==> r.trace[|r.trace| - 1] == SendComplete(task.id)
    ensures forall i :: 0 <= i < |r.trace| ==> About(r.trace[i]) == task.id
  {
    match Decompose(task.arguments)
    case Failure(f) => Execution(None, [], Threw(f), 0)
    case Success(info) =>
      if !script.starts then Execution(Some(info), [], Threw(StartFailed), 0)
      else
        var (emitted, outcome, consumed) := PollLoop(task.id, script.steps);
        var late := if outcome == Exited then Outputs(task.id, Delivered(script.steps[consumed..])) else [];
        var trace := Outputs(task.id, script.early) + [SendRunning(task.id)] + emitted + late
                     + (if outcome == StillPolling then [] else [SendComplete(task.id)]);
        Execution(Some(info), trace, outcome, consumed)
  }
}
