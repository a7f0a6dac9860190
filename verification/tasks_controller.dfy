/** The team server's task endpoints as pure transitions over an abstract
    server state: the drone registry, the task store keyed by task id, the
    per-drone outbound frame cache, and the log of notifications broadcast to
    operators. */
module TasksController {
  import opened Wrappers
  import opened Tasks

  /** The body of a task-creation request. */
  datatype TaskRequest = TaskRequest(
    command: byte,
    alias: string,
    arguments: seq<string>,
    artefactPath: Option<string>,
    artefact: Option<seq<byte>>,
    resultType: nat)

  /** Events pushed to every connected operator. */
  datatype Notification =
    | DroneTasked(droneId: DroneId, taskId: TaskId)
    | TaskDeleted(droneId: DroneId, taskId: TaskId)

  datatype Server = Server(
    drones: set<DroneId>,
    tasks: map<TaskId, TaskRecord>,
    frames: map<DroneId, seq<Frame>>,
    notifications: seq<Notification>)

  /** The HTTP result of an endpoint. */
  datatype Response<+T> =
    | Ok(value: T)
    | NoContent
    | NotFound(message: string)
    | BadRequest(message: string)

  const DroneNotFound := "Drone not found"
  const TaskNotFound := "Task not found"
  const CannotCancel := "Task cannot be cancelled or deleted"

  /** The frames waiting for drone `d`; a drone with no entry has nothing queued. */
  function Queue(frames: map<DroneId, seq<Frame>>, d: DroneId): seq<Frame> {
    if d in frames then frames[d] else []
  }

  /** The store keys every record by its own task id. */
  ghost predicate WellKeyed(tasks: map<TaskId, TaskRecord>) {
    forall id :: id in tasks ==> tasks[id].taskId == id
  }

  /** The cancellation frame for task `t`: its id, encrypted. */
  function CancelFrame(encrypt: TaskId -> seq<byte>, t: TaskId): Frame {
    Frame(TaskCancel, encrypt(t))
  }

  /** Appends `f` to the queue of drone `d`, creating the queue if needed. */
  function CacheFrame(frames: map<DroneId, seq<Frame>>, d: DroneId, f: Frame): (r: map<DroneId, seq<Frame>>)
    ensures Queue(r, d) == Queue(frames, d) + [f]
    ensures forall x :: x != d ==> Queue(r, x) == Queue(frames, x)
  {
    frames[d := Queue(frames, d) + [f]]
  }

  /** Lists every task on the server, whatever its drone. */
  function ListAll(s: Server): (r: Response<set<TaskRecord>>)
    ensures r.Ok?
    ensures forall rec :: rec in r.value <==> exists id :: id in s.tasks && s.tasks[id] == rec
  {
    Ok(s.tasks.Values)
  }

  /** Lists the tasks of one registered drone. */
  function ListByDrone(s: Server, d: DroneId): (r: Response<set<TaskRecord>>)
    ensures r.Ok? <==> d in s.drones
    ensures !r.Ok? ==> r == NotFound("")
    ensures r.Ok? ==> forall rec :: rec in r.value <==> rec in s.tasks.Values && rec.droneId == d
  {
    if d !in s.drones then NotFound("")
    else Ok(set rec | rec in s.tasks.Values && rec.droneId == d)
  }

  /** Fetches one task. The drone is looked up first, then the task by its id
      alone: the record's own drone is never compared with `d`. */
  function Get(s: Server, d: DroneId, t: TaskId): (r: Response<TaskRecord>)
    ensures r.Ok? <==> d in s.drones && t in s.tasks
    ensures r.Ok? ==> r.value == s.tasks[t]
    ensures d !in s.drones ==> r == NotFound(DroneNotFound)
    ensures d in s.drones && t !in s.tasks ==> r == NotFound(TaskNotFound)
  {
    if d !in s.drones then NotFound(DroneNotFound)
    else if t !in s.tasks then NotFound(TaskNotFound)
    else Ok(s.tasks[t])
  }

  /** Creates a pending task for drone `d` under the fresh id `id`, on behalf
      of operator `nick`. The drone registry is not consulted. */
  function Create(s: Server, d: DroneId, nick: string, req: TaskRequest, id: TaskId): (r: (Server, Response<TaskRecord>))
    requires id !in s.tasks
    ensures r.1.Ok?
    ensures r.1.value.status == Pending
    ensures r.1.value.taskId == id && r.1.value.droneId == d && r.1.value.nick == nick
    ensures r.1.value.command == req.command && r.1.value.alias == req.alias
    ensures r.1.value.arguments == req.arguments && r.1.value.resultType == req.resultType
    ensures r.1.value.artefactPath == req.artefactPath && r.1.value.artefact == req.artefact
    ensures r.0.tasks.Keys == s.tasks.Keys + {id} && |r.0.tasks| == |s.tasks| + 1
    ensures r.0.tasks[id] == r.1.value
    ensures forall t :: t in s.tasks ==> r.0.tasks[t] == s.tasks[t]
    ensures r.0.drones == s.drones && r.0.frames == s.frames
    ensures r.0.notifications == s.notifications + [DroneTasked(d, id)]
  {
    var record := TaskRecord(id, d, nick, req.command, req.alias, req.arguments,
                             req.artefactPath, req.artefact, Pending, req.resultType);
    (s.(tasks := s.tasks[id := record],
        notifications := s.notifications + [DroneTasked(d, id)]),
     Ok(record))
  }

  /** Deletes or cancels task `t` through the route of drone `d`. A pending
      task is removed; a running one stays and gets a cancellation frame
      queued for `d`; any other task is refused. Like `Get`, it never checks
      that the task belongs to `d`, and it never looks for a cancellation
      frame already queued. */
  function Delete(s: Server, d: DroneId, t: TaskId, encrypt: TaskId -> seq<byte>): (r: (Server, Response<()>))
    ensures r.1 == NoContent <==> d in s.drones && t in s.tasks && !s.tasks[t].status.IsTerminal()
    ensures r.1.NotFound? <==> d !in s.drones || t !in s.tasks
    ensures r.1.BadRequest? <==> d in s.drones && t in s.tasks && s.tasks[t].status.IsTerminal()
    ensures r.1.BadRequest? ==> r.1 == BadRequest(CannotCancel)
    ensures d !in s.drones ==> r.1 == NotFound(DroneNotFound)
    ensures d in s.drones && t !in s.tasks ==> r.1 == NotFound(TaskNotFound)
    ensures r.1 != NoContent ==> r.0 == s
    ensures r.0.drones == s.drones
    ensures r.1 == NoContent && s.tasks[t].status == Pending ==>
      && r.0.tasks == s.tasks - {t}
      && r.0.frames == s.frames
      && r.0.notifications == s.notifications + [TaskDeleted(d, t)]
    ensures r.1 == NoContent && s.tasks[t].status == Running ==>
      && r.0.tasks == s.tasks
      && Queue(r.0.frames, d) == Queue(s.frames, d) + [CancelFrame(encrypt, t)]
      && (forall x :: x != d ==> Queue(r.0.frames, x) == Queue(s.frames, x))
      && r.0.notifications == s.notifications
  {
    if d !in s.drones then (s, NotFound(DroneNotFound))
    else if t !in s.tasks then (s, NotFound(TaskNotFound))
    else
      var task := s.tasks[t];
      if task.status == Pending then
        (s.(tasks := s.tasks - {t},
            notifications := s.notifications + [TaskDeleted(d, t)]),
         NoContent)
      else if task.status == Running then
        (s.(frames := CacheFrame(s.frames, d, CancelFrame(encrypt, t))), NoContent)
      else (s, BadRequest(CannotCancel))
  }
}
