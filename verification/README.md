# SharpC2 task lifecycle and `RunAs` executor, modelled in Dafny

This project models two pieces of decision logic of the SharpC2 command-and-control
framework and proves properties of them.

**Team server task endpoints** (`TeamServer/Controllers/TasksController.cs`). The server state
is abstract. It has the set of registered drones and the task store, a map from task id to
`TaskRecord`. It has the per-drone outbound frame cache, a map from drone id to a queue of
`Frame`s. It also has the log of notifications broadcast to operators (`DroneTasked`,
`TaskDeleted`). Each endpoint is a pure function. The reads return a `Response`
(`Ok | NoContent | NotFound | BadRequest`), and the writes return the new state together with
a `Response`:

- listing all tasks, and listing one drone's tasks;
- getting one task;
- creating a task, which is always `Pending`;
- deleting a task. A pending task is removed. A running task stays, and a `TaskCancel` frame
  carrying the encrypted task id is appended to the route drone's queue. Any other status is
  refused.

Modelled as written: the owning drone of a task is never compared with the route's drone id.
Create never consults the drone registry. Repeated cancellation of a running task queues one
more identical frame each time. Module `ControllerRuns` proves properties that span several
calls. Deletion right after creation restores the store. Cancellation frames accumulate. The
read endpoints agree with the writes: a created task reads back, a cancelled one reads back
unchanged, and a deleted one is not found. Over
any sequence of create/delete calls, the store stays keyed by task id and statuses never
change. Running and terminal records are never removed, and frame queues and the
notification log only grow at their end.

**Drone `RunAs` command** (`Drone/Commands/RunAs.cs`). The opcode is `0x3C` and the command is
threaded (`RunAs.Command`, `RunAs.Threaded`). `RunAs.Decompose` does the argument handling:

- the account `DOMAIN\USER` is split on every backslash; the domain is piece 0 and the user
  is piece 1;
- the password is `Arguments[1]` and the program is `Arguments[2]`;
- the command line is `Arguments[3..]` joined by single spaces.

The source's failing indexes are errors (`Fault`). They are reported in evaluation order.

`RunAs.Execute` runs the command against a `Script`. The script says whether the process
starts. It gives the output callbacks that run before the running message. It then gives a
sequence of `Step`s: an output callback (`Deliver`, with `None` for the null data of a
closing stream), or one head of the poll loop (`Poll`), which observes `HasExited` and the
cancellation token. The result is the trace of messages sent (`SendRunning`, `SendOutput`,
`SendComplete`), how the run ended, and how many steps it consumed. Module `RunAsTrace`
proves the following about the trace:

- completion is sent exactly once, and last, on both loop exits;
- running is sent exactly once;
- the output chunks are exactly the callbacks seen while the handlers were attached;
- the loop ends at the first head that sees exit or cancellation;
- no kill happens without a cancellation;
- after a kill, the detached handlers send nothing more;
- after a natural exit, the handlers stay attached, so later callbacks are still sent, just
  before completion;
- an exception before the loop sends nothing at all.

Module `Strings` holds `Split` and `Join`, with both round trips proved.

## Behaviour the code does not have

The model follows the code. A reader might expect three things that the code does not do.

- A malformed argument list is not reported as an output line followed by completion. The
  code indexes the arrays unguarded and has no `try`/`finally`. The exception leaves
  `Execute` with nothing sent (`RunAsTrace.ExecuteFaults`).
- Cancellation frames are not deduplicated per task. Each delete request on a running task
  appends one more frame (`ControllerRuns.RepeatedCancelAccumulates`).
- The running message does not necessarily come before all output. Output callbacks may run
  between the process start and that message. The model keeps them (`Script.early`) and
  claims only that running is sent once, after them.

## Model

| member | source | states |
|---|---|---|
| `TasksController.ListAll` | TeamServer/Controllers/TasksController.cs:41-48 | Listing all tasks always succeeds and returns exactly the records held in the store. |
| `TasksController.ListByDrone` | TeamServer/Controllers/TasksController.cs:50-62 | Succeeds exactly when the drone is registered, and returns exactly the stored records whose drone is that drone; otherwise NotFound. |
| `TasksController.Get` | TeamServer/Controllers/TasksController.cs:64-79 | Checks the drone first, then the task. It succeeds exactly when both are known, and returns the record stored under the task id whatever drone owns it. Otherwise it returns NotFound with the drone or task message. |
| `TasksController.CacheFrame` | TeamServer/Controllers/TasksController.cs:130-131 | Appends the frame at the end of the target drone's queue and leaves every other drone's queue as it was. |
| `TasksController.Create` | TeamServer/Controllers/TasksController.cs:81-103 | The new record is Pending, has the fresh id, the route drone id and the caller's nick, and copies command, alias, arguments, artefact path, artefact and result type from the request. It is added under its id, every other record is kept, one DroneTasked notification is logged, and drones and frames are untouched. |
| `TasksController.Delete` | TeamServer/Controllers/TasksController.cs:105-137 | Unknown drone or task gives NotFound. Pending gives NoContent: exactly that record is removed, no frame is queued and TaskDeleted is logged. Running gives NoContent: the store is kept, one TaskCancel frame with the encrypted id is appended to the route drone's queue only, and nothing is logged. Complete or Cancelled gives BadRequest. Any response other than NoContent leaves the state unchanged. |
| `ControllerRuns.GetAfterCreate` | TeamServer/Controllers/TasksController.cs:64-99 | A task just created is returned by Get, through any registered drone's route, as exactly the record the creation returned. |
| `ControllerRuns.GetAfterCancel` | TeamServer/Controllers/TasksController.cs:72-134 | After cancelling a running task, Get returns the same record, still Running. |
| `ControllerRuns.GetAfterDeletePending` | TeamServer/Controllers/TasksController.cs:72-125 | After deleting a pending task, Get answers NotFound with the task message. |
| `ControllerRuns.ListByDroneWithinAll` | TeamServer/Controllers/TasksController.cs:41-62 | A registered drone's listing is contained in the full listing. |
| `ControllerRuns.ListAllCountsEveryTask` | TeamServer/Controllers/TasksController.cs:41-48 | In a store keyed by task id, the full listing has exactly one record per stored task, so listing as a set loses nothing. |
| `ControllerRuns.IdsUnique` | TeamServer/Controllers/TasksController.cs:84-98 | In a store keyed by task id, two records with the same task id are the same record. |
| `ControllerRuns.DeleteUndoesCreate` | TeamServer/Controllers/TasksController.cs:84-125 | Creating a task and then deleting it through a registered drone gives NoContent and restores the store and frame cache; the log gains DroneTasked then TaskDeleted. |
| `ControllerRuns.RepeatedCancelAccumulates` | TeamServer/Controllers/TasksController.cs:128-134 | Deleting a running task k times appends k identical cancellation frames to the route drone's queue (identical because `Encrypt` is a function of the task id). The store, the drones, the log and all other queues are unchanged. |
| `ControllerRuns.OwnerIsNeverChecked` | TeamServer/Controllers/TasksController.cs:113-134 | A running task owned by another drone is returned by Get and cancelled by Delete through this drone's route; the frame goes to this drone's queue and the owner's queue is untouched. |
| `ControllerRuns.RunPreservesWellKeyed` | TeamServer/Controllers/TasksController.cs:84-125 | Any sequence of creates with fresh ids and deletes keeps every record stored under its own task id. |
| `ControllerRuns.RunKeepsStatuses` | TeamServer/Controllers/TasksController.cs:94-136 | Over any sequence of creates and deletes, no status changes: an id present at both ends has the same status, a new id is Pending. Every Running, Complete or Cancelled record survives unchanged. |
| `ControllerRuns.RunOnlyAppends` | TeamServer/Controllers/TasksController.cs:98-131 | Over any sequence of creates and deletes, the drone registry is unchanged, and each frame queue and the notification log only grow at their end. |
| `Strings.Split` | Drone/Commands/RunAs.cs:15 | Splitting yields at least one piece, no piece holds the separator, and there is exactly one piece iff the string holds no separator. |
| `Strings.JoinSplit` | Drone/Commands/RunAs.cs:15 | Joining the pieces of a split with the separator gives back the original string. |
| `Strings.SplitJoin` | Drone/Commands/RunAs.cs:15 | Splitting the join of one or more separator-free pieces gives back the pieces. |
| `Strings.Join` | Drone/Commands/RunAs.cs:25 | No parts give the empty string. One part gives that part. With more parts, the first part and the separator begin the result. The length is the sum of the parts plus one separator between each pair of neighbours. |
| `RunAs.CommandOpcode` | Drone/Commands/RunAs.cs:10 | The command answers to opcode 0x3C, a value that fits one byte. |
| `RunAs.CommandIsThreaded` | Drone/Commands/RunAs.cs:11 | The command is marked threaded, so the executor runs it on its own thread. |
| `RunAs.AccountPrefix` | Drone/Commands/RunAs.cs:15-22 | When the account holds a backslash, domain, backslash and user begin it, followed by nothing or another backslash. |
| `RunAs.Decompose` | Drone/Commands/RunAs.cs:15-25 | Succeeds iff there are at least three arguments and the first holds a backslash. Otherwise it fails at the first bad index: argument 0, then the user piece, then arguments 1 and 2. On success domain and user are the first two backslash-free pieces of the account, password and file name are arguments 1 and 2, and the command line is the rest joined by single spaces, empty for exactly three arguments. |
| `RunAs.PollLoop` | Drone/Commands/RunAs.cs:52-65 | The loop stops iff some head sees exit or cancellation, and at the first such head. It kills only when that head saw the process alive and cancellation requested. Its output messages are one chunk per callback up to that head, in order. |
| `RunAs.Chunk` | Drone/Commands/RunAs.cs:35-38 | Each callback's chunk carries the task id and status Running. |
| `RunAs.ChunkCarriesLine` | Drone/Commands/RunAs.cs:37 | A chunk's text ends in a newline, and dropping that newline gives back the callback's line, or nothing for null data. |
| `RunAs.Execute` | Drone/Commands/RunAs.cs:13-68 | It raises exactly when the arguments decompose badly or the process does not start, and then sends nothing. Otherwise it starts with the decomposed start information and sends the early chunks, then running. On both loop exits the last message is completion. Every message concerns the task's id. |
| `RunAsTrace.ExecuteFaults` | Drone/Commands/RunAs.cs:13-49 | Execute raises before its loop iff the arguments are too few, the account has no backslash, or the process does not start; it then sends nothing, not even completion. |
| `RunAsTrace.CompleteSentOnceAndLast` | Drone/Commands/RunAs.cs:52-67 | On natural exit and on cancellation, completion is sent exactly once and is the last message; otherwise it is never sent. |
| `RunAsTrace.RunningSentOnce` | Drone/Commands/RunAs.cs:44-49 | After a successful start, running is sent exactly once, right after the callbacks that ran before it; after an exception, never. |
| `RunAsTrace.OutputFaithful` | Drone/Commands/RunAs.cs:35-65 | The output chunks sent are, in order, one per callback seen while the handlers were attached. These are the callbacks before running, those up to the loop's last head, and, after a natural exit only, those after it. Each carries the task id, status Running, and the line (empty for null data) plus a newline. |
| `RunAsTrace.ExitSendsEveryCallback` | Drone/Commands/RunAs.cs:41-67 | On a natural exit the handlers are never detached, so every callback of the script is sent. |
| `RunAsTrace.LoopEndsAtFirstStop` | Drone/Commands/RunAs.cs:52-65 | After a successful start the loop ends iff some head sees exit or cancellation; it ends at the first one, and kills iff that head saw the process still alive. |
| `RunAsTrace.NoKillWithoutCancel` | Drone/Commands/RunAs.cs:55-64 | If no loop head sees a cancellation request, the process is never killed. |
| `RunAsTrace.PollLoopIgnoresLater` | Drone/Commands/RunAs.cs:52-65 | Once some head has stopped the loop, further steps leave the loop's result unchanged. |
| `RunAsTrace.LaterStepsIgnoredAfterKill` | Drone/Commands/RunAs.cs:55-62 | After a kill, the handlers were detached first, so later steps of the process leave the run, and its trace, unchanged. |
| `RunAsTrace.LateCallbackSentAfterExit` | Drone/Commands/RunAs.cs:52-67 | After a natural exit, one more callback is still sent, as one more chunk just before completion. This is where the exit path differs from the kill path. |
| `RunAsTrace.AccountDecomposition` | Drone/Commands/RunAs.cs:15-25 | An account `DOMAIN\USER` plus password, program and further arguments decomposes into exactly those parts, with the further arguments joined by spaces. |
| `RunAsTrace.WhoamiArguments` | Drone/Commands/RunAs.cs:15-25 | `CORP\svc-admin`, a password and `C:\tools\whoami.exe` give domain CORP, user svc-admin, that program and an empty command line. |
| `RunAsTrace.OneLineThenExit` | Drone/Commands/RunAs.cs:35-67 | A process that prints one line and exits yields exactly running, that line's chunk, completion. |
| `RunAsTrace.CancelledOnSecondPoll` | Drone/Commands/RunAs.cs:52-67 | Cancellation seen while the process is alive kills it; a line printed afterwards is not sent, and the trace is running then completion. |

## Left out

- `SharpC2.API/Responses/HostedFileResponse.cs` is a data holder without behaviour.
- Routing, authorization attributes and `HttpContext` claim extraction are left out. The operator's nick is an input of `Create`.
- AutoMapper response mapping is left out. Responses carry the records themselves.
- The SignalR hub is left out. Its broadcasts are entries in a notification log, and delivery is not modelled.
- `ICryptoService.Encrypt` is a function parameter. Its internals and any failure are not modelled. Each call on the same task id is assumed to give the same ciphertext, so repeated cancellations queue identical frames; a cipher with a random IV would give different payloads.
- `Helpers.GenerateShortGuid` is a fresh-id input with a precondition, since the code does not show how uniqueness is achieved.
- `ITaskService` and `IDroneService` are not part of this model. The store is a map and `GetAllByDrone` is assumed to filter by the record's drone id.
- `TasksController.ListAll`: listings are sets, because the services' ordering is not shown. `ControllerRuns.ListAllCountsEveryTask` shows that no task is lost by this.
- `TasksController.ListByDrone`: the source's `NotFound()` has no message; the model uses an empty one.
- Adding a duplicate id, frame draining and locking are left out, because the services that implement them are not shown.
- Asynchronous continuation and concurrent requests are left out; each endpoint is one atomic step.
- Real process creation, `SecureString` conversion and the 100 ms sleep are left out. Starting the process is one `Script.starts` flag.
- `RunAs.PollLoop`: the concurrency of output callbacks is reduced to a fixed interleaving given by the script.
- `RunAs.Execute`: after a natural exit, late callbacks are placed before the completion message. In the source they may also run after it, until the process is disposed; that ordering is not modelled.
- `RunAsTrace.CompleteSentOnceAndLast`: completion is last on a natural exit only because the model places late callbacks before it; in the source a late callback may follow it.
- `RunAsTrace.LateCallbackSentAfterExit`: "just before completion" is the model's placement of late callbacks; in the source such a callback may also come after completion.
- `RunAs.PollLoop`: a process that exits between the `HasExited` check and `Kill`, and an exception from `Kill`, are not modelled.
- `RunAs.Execute`: exceptions from `Drone.SendTaskRunning`, `SendTaskOutput` or `SendTaskComplete` are not modelled.
- `Environment.NewLine` is fixed to its Windows value, `"\r\n"`, since setting a domain and user on a process start is a Windows facility.
- A null `Arguments` list or null argument strings are not modelled. Arguments are a sequence of strings.
- The command dispatch that picks `RunAs` by opcode is not part of this model; the opcode and the threaded flag appear only as constants.
- Behaviours the code does not implement are not modelled: cancellation-frame deduplication, capturing errors as output, and a drone-reported `Cancelled` status.
