/** The ownership invariant of every gate-built log, and what follows from it: abandonment is final,
    and a first assignment respects the join. */
module Ownership {
  import opened Events
  import opened State
  import opened Legality
  import opened Readiness
  import opened Reducer
  import opened Runs

  predicate Held(s: Status) { s.Assigned? || s.InProgress? || s.Blocked? || s.InReview? || s.Failed? }

  predicate Unheld(s: Status) { s.Created? || s.Ready? || s.Reopened? }

  /** Who owns the task, and who has been tried on it. */
  ghost predicate OwnerInv(row: TaskRow, roster: set<string>) {
    && (Held(row.status) ==> row.owner.Some?)
    && (Unheld(row.status) ==> row.owner.None?)
    && (row.owner.Some? ==> row.owner.value in row.triedBy)
    && row.triedBy <= roster
    && (row.status == Ready ==> row.triedBy != {})
  }

  /** A blocker is set on a blocked task, and kept only by the plan-wide cancel. */
  ghost predicate BlockerInv(row: TaskRow) {
    && (row.blocker.reason.Some? || row.blocker.needs.Some? ==> row.status == Blocked || row.status == Cancelled)
    && (row.status == Blocked ==> row.blocker.reason.Some?)
    && !row.joinUnsatisfiable
  }

  /** What holds of each row of a raw board, given the roster. */
  ghost predicate RowInv(row: TaskRow, roster: set<string>) {
    OwnerInv(row, roster) && BlockerInv(row)
  }

  ghost predicate BoardInv(b: BoardView) {
    forall t | t in b.tasks :: RowInv(b.tasks[t], b.roster) && b.tasks[t].spec.taskId == t
  }

  lemma OwnerInvOverride(row: TaskRow, roster: set<string>, ev: Event)
    requires OwnerInv(row, roster) && ev.op.Override? && Permits(row, roster, ev)
    ensures OwnerInv(TaskEffect(row, ev), roster)
  {
  }

  lemma OwnerInvHand(row: TaskRow, roster: set<string>, ev: Event)
    requires OwnerInv(row, roster) && (ev.op.Assign? || ev.op.Reassign? || ev.op.Reject?) && Permits(row, roster, ev)
    ensures OwnerInv(TaskEffect(row, ev), roster)
  {
  }

  lemma OwnerInvNext(row: TaskRow, roster: set<string>, t: string, ev: Event)
    requires OwnerInv(row, roster)
    requires Names(ev, t) && HasRule(ev.op) ==> Permits(row, roster, ev)
    ensures OwnerInv(NextRow(row, t, ev), roster)
  {
    if !Names(ev, t) || !HasRule(ev.op) {
    } else if ev.op.Override? {
      OwnerInvOverride(row, roster, ev);
    } else if ev.op.Assign? || ev.op.Reassign? || ev.op.Reject? {
      OwnerInvHand(row, roster, ev);
    }
  }

  lemma BlockerInvNext(row: TaskRow, t: string, ev: Event)
    requires BlockerInv(row) && row.spec.taskId == t
    ensures BlockerInv(NextRow(row, t, ev)) && NextRow(row, t, ev).spec.taskId == t
  {
  }

  lemma RowInvStep(b: BoardView, ev: Event, t: string)
    requires BoardInv(b) && Accepts(b, ev) && t in Effect(b, ev).tasks
    ensures RowInv(Effect(b, ev).tasks[t], Effect(b, ev).roster) && Effect(b, ev).tasks[t].spec.taskId == t
  {
    EffectDomain(b, ev);
    if t in b.tasks {
      if HasRule(ev.op) { AcceptedPermits(b, ev); }
      EffectRow(b, ev, t);
      OwnerInvNext(b.tasks[t], b.roster, t, ev);
      BlockerInvNext(b.tasks[t], t, ev);
    }
  }

  /** Ownership holds on every gate-built log: working, reviewed and failed tasks have an owner; created,
      ready and reopened ones have none; owners were tried, and only registered workers were tried; and
      a blocker is set only on a blocked task, or on one a plan cancel caught blocked. */
  lemma {:induction false} OwnershipInvariant(log: seq<Event>, n: nat)
    requires GateBuilt(log) && n <= |log|
    ensures BoardInv(At(log, n))
    decreases n
  {
    if n > 0 {
      OwnershipInvariant(log, n - 1);
      StepPermits(log, n - 1);
      forall t | t in At(log, n).tasks
        ensures RowInv(At(log, n).tasks[t], At(log, n).roster) && At(log, n).tasks[t].spec.taskId == t
      {
        RowInvStep(At(log, n - 1), log[n - 1], t);
      }
    }
  }

  /** The same on the board a reader sees, where `ready` may be derived. */
  lemma DerivedOwnership(log: seq<Event>, t: string)
    requires GateBuilt(log) && t in Folded(log).tasks
    ensures var row := Folded(log).tasks[t];
            && (Held(row.status) ==> row.owner.Some?)
            && (Unheld(row.status) ==> row.owner.None?)
            && (row.owner.Some? ==> row.owner.value in row.triedBy)
            && row.triedBy <= Folded(log).roster
            && !(row.status == Ready && row.joinUnsatisfiable)
  {
    FoldedIsDerived(log);
    assert log[..|log|] == log;
    OwnershipInvariant(log, |log|);
    DeriveChangesOnlyWaiting(Raw(log), t);
  }

  // ---- abandonment is final ------------------------------------------------------------------------

  ghost predicate Abandoned(b: BoardView, t: string) {
    t in b.tasks && b.tasks[t].status == Cancelled && b.tasks[t].owner.None?
  }

  predicate CreationOf(ev: Event, t: string) { ev.op.Create? && Names(ev, t) }

  lemma AbandonedStep(log: seq<Event>, i: nat, t: string)
    requires GateBuilt(log) && i < |log| && Abandoned(At(log, i), t) && !CreationOf(log[i], t)
    ensures Abandoned(At(log, i + 1), t)
  {
    StepPermits(log, i);
    EffectRow(At(log, i), log[i], t);
  }

  predicate AbandonOf(ev: Event, t: string) { ev.op.Override? && ev.op.status == ToCancelled && Names(ev, t) }

  lemma AbandonTakesEffect(log: seq<Event>, i: nat, t: string)
    requires GateBuilt(log) && i < |log| && AbandonOf(log[i], t)
    ensures Abandoned(At(log, i + 1), t) && log[i].actor.role == Human
  {
    StepPermits(log, i);
    EffectRow(At(log, i), log[i], t);
  }

  /** Once an abandon of `t` is accepted, `t` stays cancelled and unowned until it is created anew. */
  lemma {:induction false} AbandonmentIsFinal(log: seq<Event>, i: nat, n: nat, t: string)
    requires GateBuilt(log) && i < n <= |log|
    requires AbandonOf(log[i], t)
    requires forall j | i < j < n :: !CreationOf(log[j], t)
    ensures Abandoned(At(log, n), t)
    ensures log[i].actor.role == Human
    decreases n
  {
    AbandonTakesEffect(log, i, t);
    if n > i + 1 {
      AbandonmentIsFinal(log, i, n - 1, t);
      AbandonedStep(log, n - 1, t);
    }
  }

  // ---- the first assignment respects the join ------------------------------------------------------

  predicate AssignmentOf(ev: Event, t: string) { ev.op.Assign? && Names(ev, t) }

  lemma UntriedStep(log: seq<Event>, i: nat, t: string)
    requires GateBuilt(log) && i < |log| && !AssignmentOf(log[i], t)
    requires t in At(log, i).tasks && At(log, i).tasks[t].triedBy == {}
    ensures t in At(log, i + 1).tasks && At(log, i + 1).tasks[t].triedBy == {}
  {
    OwnershipInvariant(log, i);
    StepPermits(log, i);
    EffectRow(At(log, i), log[i], t);
  }

  lemma CreationStep(log: seq<Event>, i: nat, t: string)
    requires GateBuilt(log) && i < |log| && CreationOf(log[i], t)
    ensures t in At(log, i + 1).tasks && At(log, i + 1).tasks[t] == FreshRow(t, log[i])
  {
    AtStep(log, i);
  }

  /** No worker has been tried on a task that has not been assigned since its creation. */
  lemma {:induction false} UntriedSinceCreation(log: seq<Event>, c: nat, n: nat, t: string)
    requires GateBuilt(log) && c < n <= |log| && CreationOf(log[c], t)
    requires forall j | c < j < n :: !AssignmentOf(log[j], t)
    ensures t in At(log, n).tasks
    ensures At(log, n).tasks[t].triedBy == {}
    decreases n
  {
    CreationStep(log, c, t);
    if n > c + 1 {
      UntriedSinceCreation(log, c, n - 1, t);
      UntriedStep(log, n - 1, t);
    }
  }

  /** A task's first assignment since its latest creation is accepted only where enough of its dependencies
      are done, the task is not pruned, and the worker is registered. */
  lemma FirstAssignmentRespectsJoin(log: seq<Event>, c: nat, i: nat, t: string)
    requires GateBuilt(log) && c < i < |log| && CreationOf(log[c], t) && AssignmentOf(log[i], t)
    requires forall j | c < j < i :: !AssignmentOf(log[j], t)
    ensures t in At(log, i).tasks
    ensures var b := At(log, i); var row := b.tasks[t];
            && Enough(b, row) && !row.pruned && log[i].op.worker in b.roster
  {
    UntriedSinceCreation(log, c, i, t);
    OwnershipInvariant(log, i);
    StepPermits(log, i);
    AcceptedAssignment(At(log, i), log[i]);
    FiresIffEnough(At(log, i), At(log, i).tasks[t]);
  }
}
