/** What a coordinator asks the board for, against what the gate will let it do with the answer. */
module Queries {
  import opened Wrappers
  import opened Events
  import opened State
  import opened Legality
  import opened Reducer
  import opened Runs
  import opened Ownership
  import opened Reviews

  /** Ready, unowned, unpruned tasks. */
  function ReadyIds(b: BoardView): set<string> {
    set t | t in b.tasks && b.tasks[t].status == Ready && b.tasks[t].owner.None? && !b.tasks[t].pruned
  }

  /** Tasks in review with a passed verdict. */
  function AwaitingClose(b: BoardView): set<string> {
    set t | t in b.tasks && b.tasks[t].status == InReview && b.tasks[t].latestReview == Some(Passed)
  }

  /** The board a reader of the first `n` events has. */
  function Shown(log: seq<Event>, n: nat): BoardView
    requires n <= |log|
  {
    Derive(At(log, n))
  }

  predicate MayAssign(actor: Actor) { actor.role == Coordinator || actor.role == Machinist }

  predicate MayClose(actor: Actor) { actor.role == Coordinator || actor.role == Human }

  /** On a gate-built log a task is listed as ready exactly when an assignment of it would be accepted and
      it is not pruned; the guard itself does not look at the pruning. */
  lemma ReadyIffAssignable(log: seq<Event>, n: nat, t: string, actor: Actor, worker: string)
    requires GateBuilt(log) && n <= |log| && MayAssign(actor) && worker in At(log, n).roster
    ensures t in ReadyIds(Shown(log, n)) <==>
            && Gate(Shown(log, n), actor, Assign(worker), Some(t)).None?
            && !Shown(log, n).tasks[t].pruned
  {
    if t in At(log, n).tasks {
      ReadyIsUnowned(log, n, t);
      ListedIffAssignable(At(log, n), t, actor, worker);
    }
  }

  lemma ReadyIsUnowned(log: seq<Event>, n: nat, t: string)
    requires GateBuilt(log) && n <= |log| && t in At(log, n).tasks
    ensures Shown(log, n).tasks[t].status == Ready ==> At(log, n).tasks[t].owner.None?
  {
    OwnershipInvariant(log, n);
    GateReads(At(log, n), t);
  }

  lemma ListedIffAssignable(b: BoardView, t: string, actor: Actor, worker: string)
    requires MayAssign(actor) && worker in b.roster && t in b.tasks
    requires Derive(b).tasks[t].status == Ready ==> b.tasks[t].owner.None?
    ensures t in ReadyIds(Derive(b)) <==>
            Gate(Derive(b), actor, Assign(worker), Some(t)).None? && !Derive(b).tasks[t].pruned
  {
    GateReads(b, t);
  }

  /** So a rejected task that is then pruned is no longer listed, and can still be assigned. */
  lemma PrunedAfterRejectionIsAssignable(log: seq<Event>, n: nat, t: string, actor: Actor, worker: string)
    requires GateBuilt(log) && n < |log| && log[n].op.Prune? && Names(log[n], t)
    requires t in At(log, n).tasks && At(log, n).tasks[t].status == Ready
    requires MayAssign(actor) && worker in At(log, n).roster
    ensures t !in ReadyIds(Shown(log, n + 1))
    ensures Gate(Shown(log, n + 1), actor, Assign(worker), Some(t)).None?
  {
    PruneKeepsReady(log, n, t);
    OwnershipInvariant(log, n + 1);
    AssignableWhenReady(At(log, n + 1), t, actor, worker);
  }

  lemma PruneKeepsReady(log: seq<Event>, n: nat, t: string)
    requires GateBuilt(log) && n < |log| && log[n].op.Prune? && Names(log[n], t)
    requires t in At(log, n).tasks && At(log, n).tasks[t].status == Ready
    ensures var next := At(log, n + 1);
            && t in next.tasks && next.tasks[t].status == Ready && next.tasks[t].pruned
            && At(log, n).roster <= next.roster
  {
    StepAccepted(log, n);
    EffectRow(At(log, n), log[n], t);
    EffectDomain(At(log, n), log[n]);
  }

  lemma AssignableWhenReady(b: BoardView, t: string, actor: Actor, worker: string)
    requires MayAssign(actor) && worker in b.roster
    requires t in b.tasks && b.tasks[t].status == Ready && b.tasks[t].owner.None?
    ensures Derive(b).tasks[t].pruned == b.tasks[t].pruned
    ensures Gate(Derive(b), actor, Assign(worker), Some(t)).None?
  {
    GateReads(b, t);
  }

  /** A close is accepted exactly where the log holds a pass that still stands and the task is not
      cancelled: every task awaiting its close can be closed. */
  lemma CloseIffCurrentPass(log: seq<Event>, n: nat, t: string, actor: Actor, why: Option<string>)
    requires GateBuilt(log) && n <= |log| && MayClose(actor)
    ensures Gate(Shown(log, n), actor, Override(ToDone, why), Some(t)).None? <==>
            PassIsCurrent(log, n, t) && t in At(log, n).tasks && At(log, n).tasks[t].status != Cancelled
    ensures t in AwaitingClose(Shown(log, n)) <==>
              t in At(log, n).tasks && At(log, n).tasks[t].status == InReview && PassIsCurrent(log, n, t)
    ensures t in AwaitingClose(Shown(log, n)) ==>
              Gate(Shown(log, n), actor, Override(ToDone, why), Some(t)).None?
  {
    PassedMeansCurrentPass(log, n, t);
    GateReads(At(log, n), t);
  }

  // ---- an instance -----------------------------------------------------------------------------------------

  function Row(n: int, actor: Actor, op: Op, task: Option<string>): Event {
    Event(Some(n), n, n, actor, op, task, None)
  }

  const PLANNER := Actor(Planner, "planner")
  const COORDINATOR := Actor(Coordinator, "coordinator")
  const WORKER := Actor(Worker, "w")

  /** A worker is registered and a task created, assigned, rejected and pruned. */
  const REJECTED_THEN_PRUNED := [
    Row(1, PLANNER, Register("w"), None),
    Row(2, PLANNER, Create("code", None, "a task"), Some("t")),
    Row(3, COORDINATOR, Assign("w"), Some("t")),
    Row(4, WORKER, Reject, Some("t")),
    Row(5, COORDINATOR, Prune, Some("t"))]

  /** The one task of the instance, after its first `n` events. */
  function TaskAfter(n: nat): TaskRow
    requires 2 <= n <= 4
  {
    var log := REJECTED_THEN_PRUNED;
    var made := FreshRow("t", log[1]);
    var given := GiveRow(made, "w", log[2]);
    if n == 2 then made else if n == 3 then given else ReleaseRow(given, Ready, log[3])
  }

  function BoardAfter(n: nat): BoardView
    requires n <= 4
  {
    if n == 0 then EMPTY_BOARD
    else if n == 1 then BoardView(map[], {"w"})
    else BoardView(map["t" := TaskAfter(n)], {"w"})
  }

  lemma InstanceStep(n: nat)
    requires n < 4 && At(REJECTED_THEN_PRUNED, n) == BoardAfter(n)
    ensures At(REJECTED_THEN_PRUNED, n + 1) == BoardAfter(n + 1)
  {
    AtStep(REJECTED_THEN_PRUNED, n);
    assert BoardAfter(n + 1).roster == Effect(BoardAfter(n), REJECTED_THEN_PRUNED[n]).roster;
  }

  lemma {:induction false} InstanceBoards(n: nat)
    requires n <= 4
    ensures At(REJECTED_THEN_PRUNED, n) == BoardAfter(n)
  {
    if n > 0 {
      InstanceBoards(n - 1);
      InstanceStep(n - 1);
    }
  }

  lemma RegisterAllowed()
    ensures Accepts(BoardAfter(0), Row(1, PLANNER, Register("w"), None))
  {
    GateOnRaw(BoardAfter(0), Row(1, PLANNER, Register("w"), None));
  }

  lemma CreateAllowed()
    ensures Accepts(BoardAfter(1), Row(2, PLANNER, Create("code", None, "a task"), Some("t")))
  {
    GateOnRaw(BoardAfter(1), Row(2, PLANNER, Create("code", None, "a task"), Some("t")));
  }

  lemma AssignAllowed()
    ensures Accepts(BoardAfter(2), Row(3, COORDINATOR, Assign("w"), Some("t")))
  {
    GateOnRaw(BoardAfter(2), Row(3, COORDINATOR, Assign("w"), Some("t")));
    assert TaskAfter(2).dependsOn == {};
  }

  lemma RejectAllowed()
    ensures Accepts(BoardAfter(3), Row(4, WORKER, Reject, Some("t")))
  {
    GateOnRaw(BoardAfter(3), Row(4, WORKER, Reject, Some("t")));
  }

  lemma PruneAllowed()
    ensures Accepts(BoardAfter(4), Row(5, COORDINATOR, Prune, Some("t")))
  {
    GateOnRaw(BoardAfter(4), Row(5, COORDINATOR, Prune, Some("t")));
    assert TaskAfter(4).dependsOn == {};
  }

  lemma InstanceAccepted(n: nat)
    requires n < 5
    ensures Accepts(At(REJECTED_THEN_PRUNED, n), REJECTED_THEN_PRUNED[n])
  {
    InstanceBoards(n);
    if n == 0 {
      RegisterAllowed();
    } else if n == 1 {
      CreateAllowed();
    } else if n == 2 {
      AssignAllowed();
    } else if n == 3 {
      RejectAllowed();
    } else {
      PruneAllowed();
    }
  }

  lemma {:induction false} InstanceGated(n: nat)
    requires n <= 5
    ensures AcceptedUpTo(REJECTED_THEN_PRUNED, n)
  {
    if n > 0 {
      InstanceGated(n - 1);
      InstanceAccepted(n - 1);
    }
  }

  lemma InstanceIsLog()
    ensures SeqOrdered(REJECTED_THEN_PRUNED) && |REJECTED_THEN_PRUNED| == 5
    ensures REJECTED_THEN_PRUNED[4].op.Prune? && Names(REJECTED_THEN_PRUNED[4], "t")
  {
  }

  lemma InstanceRejected()
    ensures var b := At(REJECTED_THEN_PRUNED, 4); "t" in b.tasks && b.tasks["t"].status == Ready && "w" in b.roster
  {
    InstanceBoards(4);
    assert TaskAfter(4).status == Ready;
  }

  /** The case above is reached: this log is gate-built, and at its end the task is unlisted and assignable. */
  lemma RejectedThenPrunedIsReached()
    ensures GateBuilt(REJECTED_THEN_PRUNED)
    ensures "t" !in ReadyIds(Shown(REJECTED_THEN_PRUNED, 5))
    ensures Gate(Shown(REJECTED_THEN_PRUNED, 5), COORDINATOR, Assign("w"), Some("t")).None?
  {
    InstanceGated(5);
    InstanceIsLog();
    InstanceRejected();
    PrunedAfterRejectionIsAssignable(REJECTED_THEN_PRUNED, 4, "t", COORDINATOR, "w");
  }
}
