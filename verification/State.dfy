/** Board state as values: what a task row and a board hold, and the two provenance stamps. */
module State {
  import opened Wrappers
  import opened Events

  datatype Status =
    | Created | Ready | Assigned | InProgress | Blocked | InReview | Done | Failed | Cancelled | Reopened

  datatype Verdict = Passed | Refuted

  /** What creation fixes. */
  datatype Spec = Spec(taskId: string, taskType: Option<string>, readyWhen: Option<int>, title: string)

  /** Provenance: the event that last moved the task, and when its status last changed. */
  datatype Trail = Trail(lastCausingSeq: Option<int>, lastCausingEventId: Option<int>, lastStatusChangeTs: int)

  datatype Blocker = Blocker(reason: Option<string>, needs: Option<string>)

  /** One task of the board, its fields grouped by when they change. */
  datatype TaskRow = TaskRow(
    spec: Spec,
    status: Status,
    owner: Option<string>,
    dependsOn: set<string>,
    latestReview: Option<Verdict>,
    lastResultRef: Option<string>,
    trail: Trail,
    escalated: bool,
    triedBy: set<string>,
    pruned: bool,
    joinUnsatisfiable: bool,
    priority: Priority,
    blocker: Blocker)

  datatype BoardView = BoardView(tasks: map<string, TaskRow>, roster: set<string>)

  const EMPTY_BOARD := BoardView(map[], {})

  /** The join threshold: `ready_when` when it is a positive integer, else every dependency. */
  function ResolveK(row: TaskRow): int {
    if row.spec.readyWhen.Some? && row.spec.readyWhen.value >= 1 then row.spec.readyWhen.value
    else |row.dependsOn|
  }

  const NO_BLOCKER := Blocker(None, None)

  /** Provenance after an event that does not move the status. */
  function Stamped(trail: Trail, ev: Event): Trail { Trail(ev.seqNo, Some(ev.eventId), trail.lastStatusChangeTs) }

  /** Provenance after an event that does. */
  function Changed(ev: Event): Trail { Trail(ev.seqNo, Some(ev.eventId), ev.ts) }

  /** The dependencies of a row that exist on the board and are not pruned. */
  function LiveDeps(b: BoardView, row: TaskRow): set<string> {
    set d | d in row.dependsOn && d in b.tasks && !b.tasks[d].pruned
  }

  /** The live dependencies that are done. */
  function DoneDeps(b: BoardView, row: TaskRow): set<string> {
    set d | d in row.dependsOn && d in b.tasks && !b.tasks[d].pruned && b.tasks[d].status == Done
  }
}
