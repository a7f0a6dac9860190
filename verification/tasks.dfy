/** Records and frames shared by the team server and the drone: the task
    record with its status, and the typed envelope that carries encrypted
    payloads between the two sides. */
module Tasks {
  import opened Wrappers

  /** An octet of a payload or artefact. */
  newtype byte = x: int | 0 <= x < 256

  type DroneId = string
  type TaskId = string

  /** Lifecycle of a task: created pending, started by the drone, and closed
      by one of the two terminal states. */
  datatype TaskStatus = Pending | Running | Complete | Cancelled {
    predicate IsTerminal() {
      this == Complete || this == Cancelled
    }
  }

  /** The server's record of one unit of work. `command` is the opcode the
      drone dispatches on; `resultType` is the ordinal of the rendering hint,
      whose members play no part in the logic modelled here. */
  datatype TaskRecord = TaskRecord(
    taskId: TaskId,
    droneId: DroneId,
    nick: string,
    command: byte,
    alias: string,
    arguments: seq<string>,
    artefactPath: Option<string>,
    artefact: Option<seq<byte>>,
    status: TaskStatus,
    resultType: nat)

  /** The frame kinds that concern tasks. */
  datatype FrameType = Task | TaskOutput | TaskRunning | TaskComplete | TaskCancel

  /** A typed envelope; the payload is ciphertext and is never inspected. */
  datatype Frame = Frame(frameType: FrameType, payload: seq<byte>)
}
