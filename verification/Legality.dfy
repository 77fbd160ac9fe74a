/** The legality table: one guard and one effect per rule, the emit authority, and the gate. */
module Legality {
  import opened Wrappers
  import opened Events
  import opened State

  // ---- the guards, each read on a derived board -------------------------------------------

  predicate Known(b: BoardView, task: Option<string>) { task.Some? && task.value in b.tasks }

  function NeedsTask(b: BoardView, task: Option<string>): Option<Code> {
    if Known(b, task) then None else Some(UnknownTask)
  }

  /** The guard of a transition out of one status, or of two. */
  function FromState(b: BoardView, task: Option<string>, from: Status, orFrom: Status): Option<Code> {
    if !Known(b, task) then Some(UnknownTask)
    else if b.tasks[task.value].status != from && b.tasks[task.value].status != orFrom then Some(IllegalTransition)
    else None
  }

  function GuardAssign(b: BoardView, task: Option<string>, worker: string): Option<Code> {
    if !Known(b, task) then Some(UnknownTask)
    else if worker !in b.roster then Some(UnknownWorker)
    else if b.tasks[task.value].owner.Some? then Some(AlreadyOwned)
    else if b.tasks[task.value].status != Ready then Some(NotReady)
    else None
  }

  predicate Running(s: Status) { s.Assigned? || s.Blocked? || s.InProgress? }

  function GuardReassign(b: BoardView, task: Option<string>, to: string): Option<Code> {
    if !Known(b, task) then Some(UnknownTask)
    else if to !in b.roster then Some(UnknownWorker)
    else if !Running(b.tasks[task.value].status) then Some(IllegalTransition)
    else None
  }

  function GuardDone(b: BoardView, task: Option<string>): Option<Code> {
    if Known(b, task) && b.tasks[task.value].status == Cancelled then Some(IllegalTransition)
    else if !Known(b, task) || b.tasks[task.value].latestReview != Some(Passed) then Some(IllegalTransition)
    else None
  }

  /** The characters Python's `str.strip` removes. */
  predicate IsSpace(c: char) {
    var n := c as int;
    0x09 <= n <= 0x0d || 0x1c <= n <= 0x20 || n in {0x85, 0xa0, 0x1680, 0x2028, 0x2029, 0x202f, 0x205f, 0x3000}
    || 0x2000 <= n <= 0x200a
  }

  predicate Blank(s: string) { forall i | 0 <= i < |s| :: IsSpace(s[i]) }

  const ABANDONABLE := {Created, Ready, Assigned, InProgress, Blocked, InReview, Reopened}

  function GuardCancel(b: BoardView, actor: Actor, task: Option<string>, why: Option<string>): Option<Code> {
    if !Known(b, task) then Some(UnknownTask)
    else if actor.role != Human then Some(NotAuthorized)
    else if why.None? || Blank(why.value) then Some(IllegalTransition)
    else if b.tasks[task.value].pruned then Some(IllegalTransition)
    else if b.tasks[task.value].status in ABANDONABLE then None
    else Some(IllegalTransition)
  }

  /** Pruning `target` would take this join, satisfiable now, below its threshold. */
  predicate WouldBreak(b: BoardView, target: string, join: TaskRow) {
    && target in join.dependsOn && !join.pruned
    && |LiveDeps(b, join)| >= ResolveK(join) && |LiveDeps(b, join)| - 1 < ResolveK(join)
  }

  function GuardPrune(b: BoardView, task: Option<string>): Option<Code> {
    if !Known(b, task) then Some(UnknownTask)
    else if b.tasks[task.value].status == Done || b.tasks[task.value].status == Cancelled then Some(IllegalTransition)
    else if b.tasks[task.value].pruned then Some(IllegalTransition)
    else if exists j | j in b.tasks :: WouldBreak(b, task.value, b.tasks[j]) then Some(IllegalTransition)
    else None
  }

  /** Whether the table has a rule for the operation. */
  predicate HasRule(op: Op) {
    match op
    case Override(to, _) => !to.ToOther?
    case Revise(action) => action.CancelPlan?
    case RecordRefusal(_) => false
    case Fact(_) => false
    case _ => true
  }

  /** The guard of the operation's rule. */
  function Guard(b: BoardView, actor: Actor, op: Op, task: Option<string>): Option<Code>
    requires HasRule(op)
  {
    match op
    case Create(_, _, _) => if task.None? then Some(IllegalTransition) else None
    case AddDependency(_) => NeedsTask(b, task)
    case SetPriority(_) => NeedsTask(b, task)
    case Register(w) => if w in b.roster then Some(IllegalTransition) else None
    case Assign(w) => GuardAssign(b, task, w)
    case Reassign(w) => GuardReassign(b, task, w)
    case Reject => FromState(b, task, Assigned, Assigned)
    case Accept => FromState(b, task, Assigned, Assigned)
    case Block(_, _) => FromState(b, task, InProgress, InProgress)
    case Unblock => FromState(b, task, Blocked, Blocked)
    case PostResult(_) => NeedsTask(b, task)
    case PassReview => NeedsTask(b, task)
    case FailReview => NeedsTask(b, task)
    case Override(to, why) =>
      if to.ToDone? then GuardDone(b, task)
      else if to.ToReopened? then FromState(b, task, InReview, InReview)
      else GuardCancel(b, actor, task, why)
    case Fail => FromState(b, task, InProgress, Blocked)
    case Escalate => NeedsTask(b, task)
    case Prune => GuardPrune(b, task)
    case Revise(_) => None
  }

  // ---- the effects, each with its own check of the raw row ----------------------------------

  function FreshRow(t: string, ev: Event): TaskRow
    requires ev.op.Create?
  {
    TaskRow(Spec(t, Some(ev.op.taskType), ev.op.readyWhen, ev.op.title), Created, None, {}, None, None,
            Changed(ev), false, {}, false, false, Normal, NO_BLOCKER)
  }

  function CancelRow(row: TaskRow, ev: Event): TaskRow { row.(status := Cancelled, trail := Changed(ev)) }

  /** A status change that clears the blocker, as all but two of them do. */
  function MoveRow(row: TaskRow, next: Status, ev: Event): TaskRow {
    row.(status := next, blocker := NO_BLOCKER, trail := Changed(ev))
  }

  function GiveRow(row: TaskRow, worker: string, ev: Event): TaskRow {
    MoveRow(row.(owner := Some(worker), triedBy := row.triedBy + {worker}), Assigned, ev)
  }

  function ReleaseRow(row: TaskRow, next: Status, ev: Event): TaskRow {
    MoveRow(row.(owner := None), next, ev)
  }

  /** The operations that stamp the row without moving its status. */
  predicate MarksOnly(op: Op) {
    op.AddDependency? || op.SetPriority? || op.PassReview? || op.FailReview? || op.Escalate? || op.Prune?
  }

  /** What an operation that names an existing task does to its row. */
  function TaskEffect(row: TaskRow, ev: Event): TaskRow {
    match ev.op
    case Create(_, _, _) => FreshRow(row.spec.taskId, ev)
    case AddDependency(d) => row.(dependsOn := row.dependsOn + {d}, trail := Stamped(row.trail, ev))
    case SetPriority(p) => row.(priority := p, trail := Stamped(row.trail, ev))
    case Assign(w) => GiveRow(row, w, ev)
    case Reassign(w) => if Running(row.status) then GiveRow(row, w, ev) else row
    case Reject => if row.status == Assigned then ReleaseRow(row, Ready, ev) else row
    case Accept => if row.status == Assigned then MoveRow(row, InProgress, ev) else row
    case Block(reason, needs) =>
      if row.status != InProgress then row
      else row.(status := Blocked, blocker := Blocker(Some(reason), needs), trail := Changed(ev))
    case Unblock => if row.status == Blocked then MoveRow(row, InProgress, ev) else row
    case PostResult(refs) =>
      MoveRow(row.(latestReview := None, lastResultRef := FirstRef(refs)), InReview, ev)
    case PassReview => row.(latestReview := Some(Passed), trail := Stamped(row.trail, ev))
    case FailReview => row.(latestReview := Some(Refuted), trail := Stamped(row.trail, ev))
    case Override(to, _) => OverrideEffect(row, to, ev)
    case Fail => if row.status == InProgress || row.status == Blocked then MoveRow(row, Failed, ev) else row
    case Escalate => row.(escalated := true, trail := Stamped(row.trail, ev))
    case Prune =>
      if row.status == Done || row.status == Cancelled then row
      else row.(pruned := true, trail := Stamped(row.trail, ev))
    case _ => row
  }

  function FirstRef(refs: seq<string>): Option<string> { if refs == [] then None else Some(refs[0]) }

  function OverrideEffect(row: TaskRow, to: OverrideTo, ev: Event): TaskRow {
    match to
    case ToDone => MoveRow(row, Done, ev)
    case ToReopened =>
      if row.status == InReview then ReleaseRow(row.(latestReview := None), Reopened, ev) else row
    case ToCancelled => ReleaseRow(row, Cancelled, ev)
    case ToOther(_) => row
  }

  /** The state mutation the fold applies for one event. */
  function Effect(b: BoardView, ev: Event): BoardView {
    if !HasRule(ev.op) then b
    else match ev.op
      case Create(_, _, _) =>
        if ev.task.None? then b else b.(tasks := b.tasks[ev.task.value := FreshRow(ev.task.value, ev)])
      case Register(w) => b.(roster := b.roster + {w})
      case Revise(_) => b.(tasks := map t | t in b.tasks :: CancelRow(b.tasks[t], ev))
      case _ =>
        if !Known(b, ev.task) then b
        else b.(tasks := b.tasks[ev.task.value := TaskEffect(b.tasks[ev.task.value], ev)])
  }

  // ---- authority and the gate -----------------------------------------------------------------

  /** The emit authority: which roles may emit which event types. */
  predicate MayEmit(role: Role, kind: EventType) {
    match role
    case Planner =>
      kind.GoalReceived? || kind.TaskCreated? || kind.DependencyAdded? || kind.WorkerRegistered?
      || kind.PrioritySet? || kind.PlanRevised?
    case Coordinator =>
      kind.TaskAssigned? || kind.TaskReassigned? || kind.TaskEscalated? || kind.StatusOverride?
      || kind.TaskPruned? || kind.NotePosted?
    case Worker =>
      kind.TaskAccepted? || kind.TaskRejected? || kind.TaskProgress? || kind.TaskBlocked?
      || kind.TaskUnblocked? || kind.ResultPosted? || kind.TaskFailed? || kind.QuestionAsked?
      || kind.TaskReported?
    case Instrument =>
      kind.PromotionCreated? || kind.PromotionSuppressed? || kind.MetricThresholdCrossed?
      || kind.ReviewPassed? || kind.ReviewFailed? || kind.ExecutionStarted?
      || kind.ExecutionFinished?
    case Human =>
      kind.TaskReported? || kind.TaskCreated? || kind.TaskEscalated? || kind.StatusOverride?
      || kind.WorkerRegistered? || kind.RouteApproved?
    case Machinist => kind.TaskAssigned? || kind.NotePosted?
    case GatewayRole => kind.GatewayRejected?
  }

  /** Event types with no rule that are allowed and have no effect. */
  predicate Whitelisted(kind: EventType) {
    kind.GoalReceived? || kind.NotePosted? || kind.TaskProgress? || kind.QuestionAsked?
      || kind.MetricThresholdCrossed? || kind.PromotionCreated? || kind.PromotionSuppressed?
      || kind.GatewayRejected? || kind.TaskReported? || kind.RouteApproved? || kind.ExecutionStarted?
      || kind.ExecutionFinished?
  }

  /** The worker emits that need ownership of the task. */
  predicate WorkerOwned(kind: EventType) {
    kind.TaskAccepted? || kind.TaskProgress? || kind.TaskBlocked? || kind.TaskUnblocked?
      || kind.ResultPosted? || kind.TaskFailed?
  }

  predicate OwnershipViolation(b: BoardView, actor: Actor, kind: EventType, task: Option<string>) {
    actor.role == Worker && WorkerOwned(kind)
    && (!Known(b, task) || b.tasks[task.value].owner != Some(actor.id))
  }

  /** The whole decision: authority, ownership, then the rule's guard, with default deny. */
  function Gate(b: BoardView, actor: Actor, op: Op, task: Option<string>): Option<Code> {
    if !MayEmit(actor.role, TypeOf(op)) then Some(NotAuthorized)
    else if OwnershipViolation(b, actor, TypeOf(op), task) then Some(NotAuthorized)
    else if HasRule(op) then Guard(b, actor, op, task)
    else if !Whitelisted(TypeOf(op)) then Some(IllegalTransition)
    else None
  }
}
