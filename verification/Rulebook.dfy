/** The gate, operation by operation, as an operator would write it down: who may ask, and what has to hold on
    the raw board. The table, the authority sets and the guards decide the same. */
module Rulebook {
  import opened Wrappers
  import opened Collections
  import opened Events
  import opened State
  import opened Legality
  import opened Reducer
  import opened Readiness
  import opened Runs

  predicate OnBoard(b: BoardView, ev: Event) { ev.task.Some? && ev.task.value in b.tasks }

  /** The task named is on the board, and the actor owns it. */
  predicate Owns(b: BoardView, ev: Event) {
    ev.task.Some? && ev.task.value in b.tasks && b.tasks[ev.task.value].owner == Some(ev.actor.id)
  }

  /** Who may ask for the operation. */
  predicate Entitled(b: BoardView, ev: Event) {
    var role := ev.actor.role;
    match ev.op
    case Create(_, _, _) => role.Planner? || role.Human?
    case Register(_) => role.Planner? || role.Human?
    case AddDependency(_) => role.Planner?
    case SetPriority(_) => role.Planner?
    case Revise(_) => role.Planner?
    case Assign(_) => role.Coordinator? || role.Machinist?
    case Reassign(_) => role.Coordinator?
    case Prune => role.Coordinator?
    case Override(_, _) => role.Coordinator? || role.Human?
    case Escalate => role.Coordinator? || role.Human?
    case Reject => role.Worker?
    case Accept => role.Worker? && Owns(b, ev)
    case Block(_, _) => role.Worker? && Owns(b, ev)
    case Unblock => role.Worker? && Owns(b, ev)
    case PostResult(_) => role.Worker? && Owns(b, ev)
    case Fail => role.Worker? && Owns(b, ev)
    case PassReview => role.Instrument?
    case FailReview => role.Instrument?
    case RecordRefusal(_) => role.GatewayRole?
    case Fact(kind) => EntitledToSay(b, ev, kind)
  }

  /** Who may state a fact of a kind that has no rule. */
  predicate EntitledToSay(b: BoardView, ev: Event, kind: EventType) {
    var role := ev.actor.role;
    match kind
    case GoalReceived => role.Planner?
    case NotePosted => role.Coordinator? || role.Machinist?
    case TaskProgress => role.Worker? && Owns(b, ev)
    case QuestionAsked => role.Worker?
    case TaskReported => role.Worker? || role.Human?
    case MetricThresholdCrossed => role.Instrument?
    case PromotionCreated => role.Instrument?
    case PromotionSuppressed => role.Instrument?
    case ExecutionStarted => role.Instrument?
    case ExecutionFinished => role.Instrument?
    case RouteApproved => role.Human?
    case GatewayRejected => role.GatewayRole?
    case _ => false
  }

  /** A kind of event that the table has a rule for and that is never a plain fact. */
  predicate RuledKind(kind: EventType) {
    kind.TaskCreated? || kind.DependencyAdded? || kind.PrioritySet? || kind.WorkerRegistered?
    || kind.TaskAssigned? || kind.TaskReassigned? || kind.TaskRejected? || kind.TaskAccepted?
    || kind.TaskBlocked? || kind.TaskUnblocked? || kind.ResultPosted? || kind.ReviewPassed? || kind.ReviewFailed?
    || kind.StatusOverride? || kind.TaskFailed? || kind.TaskEscalated? || kind.TaskPruned? || kind.PlanRevised?
  }

  /** The kind under which an operation is authorized and a refusal of it recorded. */
  lemma KindsAre(op: Op)
    requires !op.Fact?
    ensures var kind := TypeOf(op);
            && (kind.TaskCreated? <==> op.Create?) && (kind.DependencyAdded? <==> op.AddDependency?)
            && (kind.PrioritySet? <==> op.SetPriority?) && (kind.WorkerRegistered? <==> op.Register?)
            && (kind.TaskAssigned? <==> op.Assign?) && (kind.TaskReassigned? <==> op.Reassign?)
            && (kind.TaskRejected? <==> op.Reject?) && (kind.TaskAccepted? <==> op.Accept?)
            && (kind.TaskBlocked? <==> op.Block?) && (kind.TaskUnblocked? <==> op.Unblock?)
            && (kind.ResultPosted? <==> op.PostResult?) && (kind.ReviewPassed? <==> op.PassReview?)
            && (kind.ReviewFailed? <==> op.FailReview?) && (kind.StatusOverride? <==> op.Override?)
            && (kind.TaskFailed? <==> op.Fail?) && (kind.TaskEscalated? <==> op.Escalate?)
            && (kind.TaskPruned? <==> op.Prune?) && (kind.PlanRevised? <==> op.Revise?)
            && (kind.GatewayRejected? <==> op.RecordRefusal?)
  {
  }

  // ---- what has to hold on the raw board ------------------------------------------------------------------------

  predicate HasStatus(b: BoardView, ev: Event, s: Status) { OnBoard(b, ev) && b.tasks[ev.task.value].status == s }

  ghost predicate MayTake(b: BoardView, ev: Event, worker: string) {
    OnBoard(b, ev) && worker in b.roster
    && (var row := b.tasks[ev.task.value];
        row.owner.None? && (row.status.Ready? || (Considered(row) && Enough(b, row))))
  }

  predicate MayMove(b: BoardView, ev: Event, worker: string) {
    OnBoard(b, ev) && worker in b.roster
    && (HasStatus(b, ev, Assigned) || HasStatus(b, ev, Blocked) || HasStatus(b, ev, InProgress))
  }

  predicate MayBeClosed(b: BoardView, ev: Event) {
    OnBoard(b, ev) && !b.tasks[ev.task.value].status.Cancelled? && b.tasks[ev.task.value].latestReview == Some(Passed)
  }

  /** The code points that count as white space. */
  const SPACES: set<int> :=
    {0x09, 0x0a, 0x0b, 0x0c, 0x0d, 0x1c, 0x1d, 0x1e, 0x1f, 0x20, 0x85, 0xa0, 0x1680, 0x2000, 0x2001, 0x2002, 0x2003,
     0x2004, 0x2005, 0x2006, 0x2007, 0x2008, 0x2009, 0x200a, 0x2028, 0x2029, 0x202f, 0x205f, 0x3000}

  /** A reason that says something. */
  predicate Says(why: Option<string>) {
    why.Some? && exists i :: 0 <= i < |why.value| && why.value[i] as int !in SPACES
  }

  predicate MayBeAbandoned(b: BoardView, ev: Event, why: Option<string>) {
    OnBoard(b, ev) && Says(why)
    && (var row := b.tasks[ev.task.value];
        !row.pruned && !row.status.Done? && !row.status.Failed? && !row.status.Cancelled?)
  }

  /** The dependencies of a task that are live. */
  function LiveOf(b: BoardView, row: TaskRow): set<string> { set d | d in row.dependsOn && IsLive(b, d) }

  /** A join that has no live dependency to spare: exactly k of them, or exactly all. */
  predicate NothingToSpare(b: BoardView, row: TaskRow) {
    if row.spec.readyWhen.Some? && row.spec.readyWhen.value >= 1
    then |LiveOf(b, row)| == row.spec.readyWhen.value
    else LiveOf(b, row) == row.dependsOn
  }

  predicate NeededBy(b: BoardView, t: string, j: string)
    requires j in b.tasks
  {
    t in b.tasks[j].dependsOn && !b.tasks[j].pruned && NothingToSpare(b, b.tasks[j])
  }

  predicate MayBePruned(b: BoardView, ev: Event) {
    OnBoard(b, ev)
    && (var row := b.tasks[ev.task.value]; !row.pruned && !row.status.Done? && !row.status.Cancelled?)
    && forall j :: j in b.tasks ==> !NeededBy(b, ev.task.value, j)
  }

  ghost predicate Lawful(b: BoardView, ev: Event) {
    match ev.op
    case Create(_, _, _) => ev.task.Some?
    case Register(w) => w !in b.roster
    case AddDependency(_) => OnBoard(b, ev)
    case SetPriority(_) => OnBoard(b, ev)
    case PostResult(_) => OnBoard(b, ev)
    case PassReview => OnBoard(b, ev)
    case FailReview => OnBoard(b, ev)
    case Escalate => OnBoard(b, ev)
    case Assign(w) => MayTake(b, ev, w)
    case Reassign(w) => MayMove(b, ev, w)
    case Reject => HasStatus(b, ev, Assigned)
    case Accept => HasStatus(b, ev, Assigned)
    case Block(_, _) => HasStatus(b, ev, InProgress)
    case Unblock => HasStatus(b, ev, Blocked)
    case Fail => HasStatus(b, ev, InProgress) || HasStatus(b, ev, Blocked)
    case Override(to, why) => LawfulOverride(b, ev, to, why)
    case Prune => MayBePruned(b, ev)
    case Revise(action) => action.CancelPlan?
    case RecordRefusal(_) => true
    case Fact(kind) => !RuledKind(kind)
  }

  predicate LawfulOverride(b: BoardView, ev: Event, to: OverrideTo, why: Option<string>) {
    match to
    case ToDone => MayBeClosed(b, ev)
    case ToReopened => HasStatus(b, ev, InReview)
    case ToCancelled => ev.actor.role.Human? && MayBeAbandoned(b, ev, why)
    case ToOther(_) => false
  }

  // ---- the gate decides so ----------------------------------------------------------------------------------------

  lemma AuthorityIs(b: BoardView, ev: Event)
    requires !ev.op.Fact?
    ensures Entitled(b, ev) <==>
            MayEmit(ev.actor.role, TypeOf(ev.op)) && !OwnershipViolation(b, ev.actor, TypeOf(ev.op), ev.task)
  {
  }

  lemma SayIs(b: BoardView, ev: Event)
    requires ev.op.Fact? && !RuledKind(ev.op.kind)
    ensures Entitled(b, ev) <==>
            MayEmit(ev.actor.role, TypeOf(ev.op)) && !OwnershipViolation(b, ev.actor, TypeOf(ev.op), ev.task)
    ensures Entitled(b, ev) ==> Whitelisted(TypeOf(ev.op))
  {
  }

  lemma NeededIsBreaking(b: BoardView, t: string, j: string)
    requires t in b.tasks && !b.tasks[t].pruned && j in b.tasks
    ensures WouldBreak(b, t, b.tasks[j]) <==> NeededBy(b, t, j)
  {
    var row := b.tasks[j];
    assert LiveOf(b, row) == LiveDeps(b, row);
    AllOrFewer(LiveDeps(b, row), row.dependsOn);
  }

  lemma PruneIs(b: BoardView, ev: Event)
    requires ev.op.Prune?
    ensures Allowed(b, ev) <==> Lawful(b, ev)
  {
    if OnBoard(b, ev) && !b.tasks[ev.task.value].pruned {
      forall j | j in b.tasks
        ensures WouldBreak(b, ev.task.value, b.tasks[j]) <==> NeededBy(b, ev.task.value, j)
      {
        NeededIsBreaking(b, ev.task.value, j);
      }
    }
  }

  lemma AssignIs(b: BoardView, ev: Event)
    requires ev.op.Assign?
    ensures Allowed(b, ev) <==> Lawful(b, ev)
  {
    if OnBoard(b, ev) { FiresIffEnough(b, b.tasks[ev.task.value]); }
  }

  lemma OverrideIs(b: BoardView, ev: Event)
    requires ev.op.Override? && HasRule(ev.op) && (ev.op.status.ToCancelled? ==> ev.actor.role.Human?)
    ensures Allowed(b, ev) <==> Lawful(b, ev)
  {
    if ev.op.why.Some? { SaysIs(ev.op.why.value); }
  }

  lemma SaysIs(why: string)
    ensures Says(Some(why)) <==> !Blank(why)
  {
    forall i | 0 <= i < |why|
      ensures IsSpace(why[i]) <==> why[i] as int in SPACES
    {
      SpaceIs(why[i]);
    }
  }

  lemma SpaceIs(c: char)
    ensures IsSpace(c) <==> c as int in SPACES
  {
  }

  lemma OthersAre(b: BoardView, ev: Event)
    requires HasRule(ev.op) && !ev.op.Override? && !ev.op.Prune? && !ev.op.Assign?
    requires ev.op.PostResult? ==> Owns(b, ev)
    ensures Allowed(b, ev) <==> Lawful(b, ev)
  {
  }

  /** The whole gate as a table, every operation against every actor: an event is accepted exactly where its
      actor is entitled to it and the raw board allows it. */
  lemma GateTable(b: BoardView, ev: Event)
    ensures Accepts(b, ev) <==> Entitled(b, ev) && Lawful(b, ev)
  {
    GateOnRaw(b, ev);
    if ev.op.Fact? {
      if !RuledKind(ev.op.kind) { SayIs(b, ev); }
    } else {
      AuthorityIs(b, ev);
      if ev.op.Assign? {
        AssignIs(b, ev);
      } else if ev.op.Prune? {
        PruneIs(b, ev);
      } else if ev.op.Override? {
        if HasRule(ev.op) && (ev.op.status.ToCancelled? ==> ev.actor.role.Human?) { OverrideIs(b, ev); }
      } else if HasRule(ev.op) && (ev.op.PostResult? ==> Owns(b, ev)) {
        OthersAre(b, ev);
      }
    }
  }

  /** A worker's work on a task is accepted only from the worker that owns it. */
  lemma OnlyOwnersWork(b: BoardView, ev: Event)
    requires Accepts(b, ev) && ev.actor.role == Worker
    requires ev.op.Accept? || ev.op.Block? || ev.op.Unblock? || ev.op.PostResult? || ev.op.Fail?
             || ev.op == Fact(TaskProgress)
    ensures ev.task.Some? && ev.task.value in b.tasks
    ensures b.tasks[ev.task.value].owner == Some(ev.actor.id)
  {
    GateTable(b, ev);
  }

  /** Whatever the ownership, a worker is free to hand back what is assigned, to report and to ask. */
  lemma NeverForOwnership(b: BoardView, ev: Event)
    requires ev.actor.role == Worker
    ensures ev.op == Reject ==> Gate(Derive(b), ev.actor, ev.op, ev.task) != Some(NotAuthorized)
    ensures ev.op == Reject ==>
              (Accepts(b, ev) <==> && ev.task.Some? && ev.task.value in b.tasks
                                   && b.tasks[ev.task.value].status == Assigned)
    ensures ev.op == Fact(TaskReported) || ev.op == Fact(QuestionAsked) ==> Accepts(b, ev)
  {
    GateTable(b, ev);
    CodesMean(b, ev);
  }

  // ---- the refusal codes --------------------------------------------------------------------------------------------

  /** The operations that look a task up before anything else about it; a close does not. */
  predicate SeeksTask(op: Op) {
    || op.AddDependency? || op.SetPriority? || op.Assign? || op.Reassign? || op.Reject? || op.PassReview?
    || op.FailReview? || op.Escalate? || op.Prune?
    || (op.Override? && (op.status.ToReopened? || op.status.ToCancelled?))
  }

  /** An abandon of a known task by anyone but a human. */
  predicate AbandonsUnasked(b: BoardView, ev: Event) {
    ev.op.Override? && ev.op.status.ToCancelled? && OnBoard(b, ev) && !ev.actor.role.Human?
  }

  predicate NamesStranger(b: BoardView, op: Op) {
    (op.Assign? && op.worker !in b.roster) || (op.Reassign? && op.to !in b.roster)
  }

  predicate AssignsOwned(b: BoardView, ev: Event) {
    OnBoard(b, ev) && ev.op.Assign? && ev.op.worker in b.roster && b.tasks[ev.task.value].owner.Some?
  }

  ghost predicate AssignsTooEarly(b: BoardView, ev: Event) {
    OnBoard(b, ev) && ev.op.Assign? && ev.op.worker in b.roster && b.tasks[ev.task.value].owner.None?
    && (var row := b.tasks[ev.task.value]; !row.status.Ready? && !(Considered(row) && Enough(b, row)))
  }

  predicate IllOverride(b: BoardView, ev: Event, to: OverrideTo, why: Option<string>) {
    match to
    case ToDone => !MayBeClosed(b, ev)
    case ToReopened => OnBoard(b, ev) && !HasStatus(b, ev, InReview)
    case ToCancelled => OnBoard(b, ev) && !MayBeAbandoned(b, ev, why)
    case ToOther(_) => true
  }

  /** A step the task is not in a state for, or that is no step at all. */
  predicate Misfit(b: BoardView, ev: Event) {
    match ev.op
    case Create(_, _, _) => ev.task.None?
    case Register(w) => w in b.roster
    case Reassign(w) =>
      OnBoard(b, ev) && w in b.roster
      && !HasStatus(b, ev, Assigned) && !HasStatus(b, ev, Blocked) && !HasStatus(b, ev, InProgress)
    case Reject => OnBoard(b, ev) && !HasStatus(b, ev, Assigned)
    case Accept => !HasStatus(b, ev, Assigned)
    case Block(_, _) => !HasStatus(b, ev, InProgress)
    case Unblock => !HasStatus(b, ev, Blocked)
    case Fail => !HasStatus(b, ev, InProgress) && !HasStatus(b, ev, Blocked)
    case Override(to, why) => IllOverride(b, ev, to, why)
    case Prune => OnBoard(b, ev) && !MayBePruned(b, ev)
    case Revise(action) => !action.CancelPlan?
    case _ => false
  }

  /** Each refusal code, exactly. (A kind that has a rule is never stated as a plain fact; one that were would
      be refused as unauthorized or illegal.) */
  lemma CodesSay(b: BoardView, ev: Event)
    ensures var code := Gate(Derive(b), ev.actor, ev.op, ev.task);
            var may := Entitled(b, ev) && !AbandonsUnasked(b, ev);
            if ev.op.Fact? && RuledKind(ev.op.kind) then code == Some(NotAuthorized) || code == Some(IllegalTransition)
            else
              && (code == Some(NotAuthorized) <==> !may)
              && (code == Some(UnknownTask) <==> may && SeeksTask(ev.op) && !OnBoard(b, ev))
              && (code == Some(UnknownWorker) <==> may && OnBoard(b, ev) && NamesStranger(b, ev.op))
              && (code == Some(AlreadyOwned) <==> may && AssignsOwned(b, ev))
              && (code == Some(NotReady) <==> may && AssignsTooEarly(b, ev))
              && (code == Some(IllegalTransition) <==> may && Misfit(b, ev))
  {
    GateTable(b, ev);
    CodesMean(b, ev);
    if ev.op.Fact? {
      if !RuledKind(ev.op.kind) { SayIs(b, ev); }
    } else {
      AuthorityIs(b, ev);
    }
  }
}
