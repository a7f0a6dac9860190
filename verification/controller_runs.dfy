/** Properties of the task endpoints across several calls: deletion undoes
    creation, repeated cancellation is not deduplicated, and over any sequence
    of create and delete calls the store stays keyed by task id, no status is
    ever changed, started tasks are never removed, and frame queues only grow. */
module ControllerRuns {
  import opened Tasks
  import opened TasksController

  /** A state-changing call on the task endpoints. The read-only endpoints
      return the state they are given and are left out of runs. */
  datatype Op =
    | CreateOp(droneId: DroneId, nick: string, req: TaskRequest, id: TaskId)
    | DeleteOp(droneId: DroneId, taskId: TaskId)

  /** A creation must be handed an id the store does not hold yet. */
  predicate Admissible(s: Server, op: Op) {
    op.CreateOp? ==> op.id !in s.tasks
  }

  function Apply(s: Server, op: Op, encrypt: TaskId -> seq<byte>): Server
    requires Admissible(s, op)
  {
    match op
    case CreateOp(d, nick, req, id) => Create(s, d, nick, req, id).0
    case DeleteOp(d, t) => Delete(s, d, t, encrypt).0
  }

  /** Every call of the run is admissible in the state it is applied to. */
  predicate ValidRun(s: Server, ops: seq<Op>, encrypt: TaskId -> seq<byte>)
    decreases |ops|
  {
    ops == [] || (Admissible(s, ops[0]) && ValidRun(Apply(s, ops[0], encrypt), ops[1..], encrypt))
  }

  function Run(s: Server, ops: seq<Op>, encrypt: TaskId -> seq<byte>): Server
    requires ValidRun(s, ops, encrypt)
    decreases |ops|
  {
    if ops == [] then s else Run(Apply(s, ops[0], encrypt), ops[1..], encrypt)
  }

  /** `k` cancellation frames for task `t`. */
  function Cancels(encrypt: TaskId -> seq<byte>, t: TaskId, k: nat): seq<Frame> {
    seq(k, _ => CancelFrame(encrypt, t))
  }

  /** Issues the same delete request `k` times. */
  function DeleteRepeatedly(s: Server, d: DroneId, t: TaskId, encrypt: TaskId -> seq<byte>, k: nat): Server
    decreases k
  {
    if k == 0 then s else Delete(DeleteRepeatedly(s, d, t, encrypt, k - 1), d, t, encrypt).0
  }

  /** A well-keyed store holds at most one record per task id. */
  lemma IdsUnique(tasks: map<TaskId, TaskRecord>, a: TaskRecord, b: TaskRecord)
    requires WellKeyed(tasks)
    requires a in tasks.Values && b in tasks.Values && a.taskId == b.taskId
    ensures a == b
  {
    var ka :| ka in tasks && tasks[ka] == a;
    var kb :| kb in tasks && tasks[kb] == b;
  }

  /** Deleting a task right after creating it, through the same drone route,
      restores the store and the frame cache; only the two notifications remain. */
  lemma DeleteUndoesCreate(s: Server, d: DroneId, nick: string, req: TaskRequest, id: TaskId,
                           encrypt: TaskId -> seq<byte>)
    requires id !in s.tasks && d in s.drones
    ensures Delete(Create(s, d, nick, req, id).0, d, id, encrypt).1 == NoContent
    ensures Delete(Create(s, d, nick, req, id).0, d, id, encrypt).0
         == s.(notifications := s.notifications + [DroneTasked(d, id), TaskDeleted(d, id)])
  {
    var s1 := Create(s, d, nick, req, id).0;
    assert s1.tasks - {id} == s.tasks;
  }

  /** Repeating a delete on a running task queues one more cancellation frame
      each time, all for the route's drone: nothing is deduplicated, and the
      record and every other queue stay as they were. */
  lemma {:induction false} RepeatedCancelAccumulates(s: Server, d: DroneId, t: TaskId,
                                                     encrypt: TaskId -> seq<byte>, k: nat)
    requires d in s.drones && t in s.tasks && s.tasks[t].status == Running
    ensures DeleteRepeatedly(s, d, t, encrypt, k).tasks == s.tasks
    ensures DeleteRepeatedly(s, d, t, encrypt, k).drones == s.drones
    ensures DeleteRepeatedly(s, d, t, encrypt, k).notifications == s.notifications
    ensures Queue(DeleteRepeatedly(s, d, t, encrypt, k).frames, d) == Queue(s.frames, d) + Cancels(encrypt, t, k)
    ensures forall x :: x != d ==> Queue(DeleteRepeatedly(s, d, t, encrypt, k).frames, x) == Queue(s.frames, x)
    decreases k
  {
    if k > 0 {
      RepeatedCancelAccumulates(s, d, t, encrypt, k - 1);
      assert Cancels(encrypt, t, k) == Cancels(encrypt, t, k - 1) + [CancelFrame(encrypt, t)];
    }
  }

  /** A running task that belongs to drone `owner` can be read and cancelled
      through the route of another registered drone `d`; the cancellation
      frame then goes to `d`'s queue and the owner's queue is untouched. */
  lemma OwnerIsNeverChecked(s: Server, d: DroneId, t: TaskId, encrypt: TaskId -> seq<byte>)
    requires d in s.drones && t in s.tasks && s.tasks[t].status == Running
    requires s.tasks[t].droneId != d
    ensures Get(s, d, t) == Ok(s.tasks[t])
    ensures Delete(s, d, t, encrypt).1 == NoContent
    ensures Queue(Delete(s, d, t, encrypt).0.frames, d) == Queue(s.frames, d) + [CancelFrame(encrypt, t)]
    ensures Queue(Delete(s, d, t, encrypt).0.frames, s.tasks[t].droneId) == Queue(s.frames, s.tasks[t].droneId)
  {
  }

  /** Every call keeps the store keyed by task id. */
  lemma {:induction false} RunPreservesWellKeyed(s: Server, ops: seq<Op>, encrypt: TaskId -> seq<byte>)
    requires ValidRun(s, ops, encrypt) && WellKeyed(s.tasks)
    ensures WellKeyed(Run(s, ops, encrypt).tasks)
    decreases |ops|
  {
    if ops != [] {
      var s1 := Apply(s, ops[0], encrypt);
      assert WellKeyed(s1.tasks);
      RunPreservesWellKeyed(s1, ops[1..], encrypt);
    }
  }

  /** Between two stores: an id kept has kept its status, and an id that is
      new holds a pending task. */
  ghost predicate StatusesKept(before: map<TaskId, TaskRecord>, after: map<TaskId, TaskRecord>) {
    forall id :: id in after ==>
      if id in before then after[id].status == before[id].status else after[id].status == Pending
  }

  /** Between two stores: every task that has left `Pending` is still there,
      unchanged. */
  ghost predicate StartedKept(before: map<TaskId, TaskRecord>, after: map<TaskId, TaskRecord>) {
    forall id :: id in before && before[id].status != Pending ==> id in after && after[id] == before[id]
  }

  /** The endpoints never change a status and never remove a task that has
      started: over any run, an id present at both ends has the same status
      at both ends (a deleted pending id may be reused, but only for another
      pending task), an id that is new is pending, and every running or
      terminal record survives unchanged. */
  lemma {:induction false} RunKeepsStatuses(s: Server, ops: seq<Op>, encrypt: TaskId -> seq<byte>)
    requires ValidRun(s, ops, encrypt)
    ensures StatusesKept(s.tasks, Run(s, ops, encrypt).tasks)
    ensures StartedKept(s.tasks, Run(s, ops, encrypt).tasks)
    decreases |ops|
  {
    if ops != [] {
      var s1 := Apply(s, ops[0], encrypt);
      assert StatusesKept(s.tasks, s1.tasks);
      assert StartedKept(s.tasks, s1.tasks);
      RunKeepsStatuses(s1, ops[1..], encrypt);
      var s2 := Run(s, ops, encrypt);
      forall id | id in s2.tasks
        ensures if id in s.tasks then s2.tasks[id].status == s.tasks[id].status else s2.tasks[id].status == Pending
      {
        if id in s.tasks && id !in s1.tasks {
          assert s.tasks[id].status == Pending;
        }
      }
    }
  }

  /** Over any run the drone registry is unchanged, every frame queue only
      grows at its end, and the notification log only grows at its end. */
  lemma {:induction false} RunOnlyAppends(s: Server, ops: seq<Op>, encrypt: TaskId -> seq<byte>)
    requires ValidRun(s, ops, encrypt)
    ensures Run(s, ops, encrypt).drones == s.drones
    ensures forall x :: Queue(s.frames, x) <= Queue(Run(s, ops, encrypt).frames, x)
    ensures s.notifications <= Run(s, ops, encrypt).notifications
    decreases |ops|
  {
    if ops != [] {
      var s1 := Apply(s, ops[0], encrypt);
      assert forall x :: Queue(s.frames, x) <= Queue(s1.frames, x);
      RunOnlyAppends(s1, ops[1..], encrypt);
    }
  }

  /** A task just created can be read back, through any registered drone's
      route, as exactly the record the creation returned. */
  lemma GetAfterCreate(s: Server, d: DroneId, nick: string, req: TaskRequest, id: TaskId, via: DroneId)
    requires id !in s.tasks && via in s.drones
    ensures Get(Create(s, d, nick, req, id).0, via, id) == Create(s, d, nick, req, id).1
  {
  }

  /** Cancelling a running task leaves the record readable and unchanged,
      still running. */
  lemma GetAfterCancel(s: Server, d: DroneId, t: TaskId, encrypt: TaskId -> seq<byte>)
    requires d in s.drones && t in s.tasks && s.tasks[t].status == Running
    ensures Get(Delete(s, d, t, encrypt).0, d, t) == Ok(s.tasks[t])
    ensures Get(Delete(s, d, t, encrypt).0, d, t).value.status == Running
  {
  }

  /** After a pending task is deleted it can no longer be found. */
  lemma GetAfterDeletePending(s: Server, d: DroneId, t: TaskId, encrypt: TaskId -> seq<byte>)
    requires d in s.drones && t in s.tasks && s.tasks[t].status == Pending
    ensures Get(Delete(s, d, t, encrypt).0, d, t) == NotFound(TaskNotFound)
  {
  }

  /** One drone's listing is part of the full listing. */
  lemma ListByDroneWithinAll(s: Server, d: DroneId)
    requires d in s.drones
    ensures ListByDrone(s, d).value <= ListAll(s).value
  {
  }

  /** In a store keyed by task id, distinct ids hold distinct records, so the
      full listing, a set, loses no task: it has one record per stored id. */
  lemma {:induction false} ListAllCountsEveryTask(s: Server)
    requires WellKeyed(s.tasks)
    ensures |ListAll(s).value| == |s.tasks|
    decreases |s.tasks|
  {
    var tasks := s.tasks;
    if tasks != map[] {
      var k :| k in tasks;
      var rest := tasks - {k};
      assert |rest| == |tasks| - 1 by { assert rest.Keys == tasks.Keys - {k}; }
      assert WellKeyed(rest);
      ListAllCountsEveryTask(s.(tasks := rest));
      assert tasks.Values == rest.Values + {tasks[k]} by {
        forall v | v in tasks.Values ensures v in rest.Values + {tasks[k]} {
          var j :| j in tasks && tasks[j] == v;
          if j != k { assert rest[j] == v; }
        }
      }
      assert tasks[k] !in rest.Values by {
        assert forall j :: j in rest ==> rest[j].taskId != tasks[k].taskId;
      }
    }
  }
}
