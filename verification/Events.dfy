/** The event envelope: actors, the vocabulary of operations, and one row of the log. */
module Events {
  import opened Wrappers

  datatype Role = Planner | Coordinator | Worker | Instrument | GatewayRole | Human | Machinist

  datatype Actor = Actor(role: Role, id: string)

  /** Machine-readable refusal codes. */
  datatype Code = NotReady | AlreadyOwned | UnknownTask | UnknownWorker | NotAuthorized | IllegalTransition

  /** The event types of the registry; any other name is `OtherType`. */
  datatype EventType =
    | TaskCreated | DependencyAdded | PrioritySet | WorkerRegistered
    | TaskAssigned | TaskReassigned | TaskRejected | TaskAccepted
    | TaskBlocked | TaskUnblocked | ResultPosted | ReviewPassed | ReviewFailed
    | StatusOverride | TaskFailed | TaskEscalated | TaskPruned | PlanRevised
    | GoalReceived | NotePosted | TaskProgress | QuestionAsked | MetricThresholdCrossed
    | PromotionCreated | PromotionSuppressed | GatewayRejected | TaskReported
    | RouteApproved | ExecutionStarted | ExecutionFinished
    | OtherType(name: string)

  datatype Priority = Low | Normal | High

  /** `status` of a status override is free text; three of its values have a rule. */
  datatype OverrideTo = ToDone | ToReopened | ToCancelled | ToOther(text: string)

  datatype PlanAction = CancelPlan | ReDecompose

  /** The payload of a recorded refusal, less its text and its copy of the refused payload. */
  datatype Refusal = Refusal(refusedType: EventType, refusedTask: Option<string>, code: Code,
                             actorId: string, count: int)

  /** An event type together with the validated payload fields that a guard or an effect reads. */
  datatype Op =
    | Create(taskType: string, readyWhen: Option<int>, title: string)
    | AddDependency(on: string)
    | SetPriority(priority: Priority)
    | Register(workerId: string)
    | Assign(worker: string)
    | Reassign(to: string)
    | Reject
    | Accept
    | Block(reason: string, needs: Option<string>)
    | Unblock
    | PostResult(refs: seq<string>)
    | PassReview
    | FailReview
    | Override(status: OverrideTo, why: Option<string>)
    | Fail
    | Escalate
    | Prune
    | Revise(action: PlanAction)
    | RecordRefusal(refusal: Refusal)
    | Fact(kind: EventType)

  /** One row of the log. `key` is the row's idempotency key, a column no reader of events sees. */
  datatype Event = Event(seqNo: Option<int>, eventId: int, ts: int, actor: Actor, op: Op,
                         task: Option<string>, key: Option<string>)

  function TypeOf(op: Op): EventType {
    match op
    case Create(_, _, _) => TaskCreated
    case AddDependency(_) => DependencyAdded
    case SetPriority(_) => PrioritySet
    case Register(_) => WorkerRegistered
    case Assign(_) => TaskAssigned
    case Reassign(_) => TaskReassigned
    case Reject => TaskRejected
    case Accept => TaskAccepted
    case Block(_, _) => TaskBlocked
    case Unblock => TaskUnblocked
    case PostResult(_) => ResultPosted
    case PassReview => ReviewPassed
    case FailReview => ReviewFailed
    case Override(_, _) => StatusOverride
    case Fail => TaskFailed
    case Escalate => TaskEscalated
    case Prune => TaskPruned
    case Revise(_) => PlanRevised
    case RecordRefusal(_) => GatewayRejected
    case Fact(kind) => kind
  }

  predicate Names(ev: Event, t: string) { ev.task == Some(t) }

  /** A plan-wide cancel: the one event that moves every task at once. */
  predicate CancelsPlan(op: Op) { op.Revise? && op.action.CancelPlan? }
}
