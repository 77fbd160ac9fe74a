/** Provenance is exact, and nothing the gate accepts is inert. */
module Provenance {
  import opened Wrappers
  import opened Events
  import opened State
  import opened Legality
  import opened Reducer
  import opened Runs
  import opened Ownership

  /** The event stamps task `t`: it has a rule, and names `t` or cancels the plan. A registration may
      carry a task id, but stamps nothing. */
  predicate Touches(ev: Event, t: string) {
    HasRule(ev.op) && !ev.op.Register? && (CancelsPlan(ev.op) || Names(ev, t))
  }

  /** The event sets the status of `t`. */
  predicate Moves(ev: Event, t: string) { Touches(ev, t) && !MarksOnly(ev.op) }

  /** Event `j` is the last of the first `n` that stamps `t`. */
  ghost predicate LastTouch(log: seq<Event>, n: nat, j: nat, t: string)
    requires n <= |log|
  {
    j < n && Touches(log[j], t) && forall i | j < i < n :: !Touches(log[i], t)
  }

  ghost predicate LastMove(log: seq<Event>, n: nat, j: nat, t: string)
    requires n <= |log|
  {
    j < n && Moves(log[j], t) && forall i | j < i < n :: !Moves(log[i], t)
  }

  /** An accepted event that stamps `t` leaves its own trail there; any other leaves the row alone. */
  lemma TrailStep(log: seq<Event>, i: nat, t: string)
    requires GateBuilt(log) && i < |log| && t in At(log, i + 1).tasks
    ensures !Touches(log[i], t) ==> t in At(log, i).tasks && At(log, i + 1).tasks[t] == At(log, i).tasks[t]
    ensures Touches(log[i], t) ==>
      var trail := At(log, i + 1).tasks[t].trail;
      && trail.lastCausingSeq == log[i].seqNo && trail.lastCausingEventId == Some(log[i].eventId)
      && (Moves(log[i], t) ==> trail.lastStatusChangeTs == log[i].ts)
      && (!Moves(log[i], t) ==> t in At(log, i).tasks
                                && trail.lastStatusChangeTs == At(log, i).tasks[t].trail.lastStatusChangeTs)
  {
    StepPermits(log, i);
    EffectDomain(At(log, i), log[i]);
    if t in At(log, i).tasks {
      EffectRow(At(log, i), log[i], t);
    }
  }

  /** A task on the board was stamped, and moved, at or after its creation. */
  lemma {:induction false} TouchExists(log: seq<Event>, n: nat, t: string) returns (touch: nat, move: nat)
    requires GateBuilt(log) && n <= |log| && t in At(log, n).tasks
    ensures LastTouch(log, n, touch, t) && LastMove(log, n, move, t) && move <= touch
    decreases n
  {
    if Moves(log[n - 1], t) {
      touch, move := n - 1, n - 1;
    } else {
      WasThere(log, n - 1, t);
      touch, move := TouchExists(log, n - 1, t);
      if Touches(log[n - 1], t) { touch := n - 1; }
    }
  }

  lemma WasThere(log: seq<Event>, i: nat, t: string)
    requires GateBuilt(log) && i < |log| && t in At(log, i + 1).tasks && !Moves(log[i], t)
    ensures t in At(log, i).tasks
  {
    TrailStep(log, i, t);
  }

  /** `last_causing_seq` and `last_causing_event_id` are those of the latest event that named the task or
      cancelled the plan; `last_status_change_ts` is the time of the latest one that set its status. */
  lemma {:induction false} ProvenanceIsExact(log: seq<Event>, n: nat, t: string, touch: nat, move: nat)
    requires GateBuilt(log) && n <= |log| && t in At(log, n).tasks
    requires LastTouch(log, n, touch, t) && LastMove(log, n, move, t)
    ensures At(log, n).tasks[t].trail ==
            Trail(log[touch].seqNo, Some(log[touch].eventId), log[move].ts)
    decreases n
  {
    TrailStep(log, n - 1, t);
    if !Moves(log[n - 1], t) {
      var earlier := TouchBefore(log, n, t, touch);
      MoveBefore(log, n, t, move);
      ProvenanceIsExact(log, n - 1, t, earlier, move);
    }
  }

  /** The last event to stamp a task, or, where that was just now, the one before it. */
  lemma TouchBefore(log: seq<Event>, n: nat, t: string, touch: nat) returns (earlier: nat)
    requires GateBuilt(log) && 0 < n <= |log| && LastTouch(log, n, touch, t)
    requires t in At(log, n - 1).tasks
    ensures LastTouch(log, n - 1, earlier, t)
    ensures if Touches(log[n - 1], t) then touch == n - 1 else earlier == touch
  {
    if Touches(log[n - 1], t) {
      var move;
      earlier, move := TouchExists(log, n - 1, t);
    } else {
      earlier := touch;
    }
  }

  lemma MoveBefore(log: seq<Event>, n: nat, t: string, move: nat)
    requires 0 < n <= |log| && LastMove(log, n, move, t) && !Moves(log[n - 1], t)
    ensures LastMove(log, n - 1, move, t)
  {
  }

  /** So no row carries a sequence number later than the log's. */
  lemma TrailIsPast(log: seq<Event>, n: nat, t: string)
    requires GateBuilt(log) && n < |log| && t in At(log, n).tasks
    ensures At(log, n).tasks[t].trail.lastCausingSeq != log[n].seqNo
  {
    var touch, move := TouchExists(log, n, t);
    ProvenanceIsExact(log, n, t, touch, move);
    assert SortKey(log[touch]) < SortKey(log[n]);
  }

  /** No accepted event with a rule leaves the board as it was, except the cancel of an empty plan. */
  lemma AcceptedIsNeverInert(log: seq<Event>, n: nat)
    requires GateBuilt(log) && n < |log| && HasRule(log[n].op)
    ensures At(log, n + 1) == At(log, n) <==> CancelsPlan(log[n].op) && At(log, n).tasks == map[]
  {
    var b, ev, next := At(log, n), log[n], At(log, n + 1);
    StepPermits(log, n);
    EffectDomain(b, ev);
    if ev.op.Register? {
      assert ev.op.workerId in next.roster;
    } else if CancelsPlan(ev.op) {
      if b.tasks != map[] {
        var t :| t in b.tasks;
        TrailStep(log, n, t);
        TrailIsPast(log, n, t);
      }
    } else {
      var t := ev.task.value;
      TrailStep(log, n, t);
      if t in b.tasks { TrailIsPast(log, n, t); }
    }
  }

  // ---- inert but for the stamps ----------------------------------------------------------------------

  /** A board without its provenance stamps: what a transition has to move not to be silently inert. */
  function Substance(b: BoardView): BoardView {
    b.(tasks := map t | t in b.tasks :: Bare(b.tasks[t]))
  }

  function Bare(row: TaskRow): TaskRow { row.(trail := Trail(None, None, 0)) }

  /** The event asks for what is already so. */
  predicate Repeats(b: BoardView, ev: Event) {
    if CancelsPlan(ev.op) then forall t | t in b.tasks :: b.tasks[t].status == Cancelled
    else Known(b, ev.task) && RepeatsOn(b.tasks[ev.task.value], ev)
  }

  predicate RepeatsOn(row: TaskRow, ev: Event) {
    match ev.op
    case Create(_, _, _) => Bare(row) == Bare(FreshRow(row.spec.taskId, ev))
    case AddDependency(d) => d in row.dependsOn
    case SetPriority(p) => row.priority == p
    case Reassign(w) => row.status == Assigned && row.owner == Some(w)
    case PostResult(refs) => row.status == InReview && row.latestReview.None? && row.lastResultRef == FirstRef(refs)
    case PassReview => row.latestReview == Some(Passed)
    case FailReview => row.latestReview == Some(Refuted)
    case Override(to, _) => to == ToDone && row.status == Done
    case Escalate => row.escalated
    case _ => false
  }

  lemma RepeatsOnExactly(row: TaskRow, roster: set<string>, ev: Event)
    requires RowInv(row, roster) && Permits(row, roster, ev) && HasRule(ev.op)
    requires !ev.op.Register? && !CancelsPlan(ev.op)
    ensures Bare(TaskEffect(row, ev)) == Bare(row) <==> RepeatsOn(row, ev)
  {
    if ev.op.AddDependency? {
      assert TaskEffect(row, ev).dependsOn == row.dependsOn + {ev.op.on};
    } else if ev.op.Reassign? && RepeatsOn(row, ev) {
      assert row.triedBy + {ev.op.to} == row.triedBy;
    }
  }

  lemma SubstanceOfOne(b: BoardView, t: string, row: TaskRow)
    ensures Substance(b.(tasks := b.tasks[t := row])) == Substance(b) <==> t in b.tasks && Bare(row) == Bare(b.tasks[t])
  {
    var next := b.(tasks := b.tasks[t := row]);
    assert t in Substance(next).tasks && Substance(next).tasks[t] == Bare(row);
    if t in b.tasks && Bare(row) == Bare(b.tasks[t]) {
      assert Substance(next).tasks == Substance(b).tasks;
    }
  }

  /** An accepted event with a rule changes more than stamps, except exactly where it repeats what is so. */
  lemma InertExactlyOnRepeats(log: seq<Event>, n: nat)
    requires GateBuilt(log) && n < |log| && HasRule(log[n].op)
    ensures Substance(At(log, n + 1)) == Substance(At(log, n)) <==> Repeats(At(log, n), log[n])
  {
    var b, ev := At(log, n), log[n];
    StepPermits(log, n);
    OwnershipInvariant(log, n);
    if ev.op.Register? {
      EffectDomain(b, ev);
      assert Substance(b).roster == b.roster && ev.op.workerId in Effect(b, ev).roster;
    } else if CancelsPlan(ev.op) {
      PlanCancelRepeats(b, ev);
    } else {
      var t := ev.task.value;
      SubstanceOfOne(b, t, if ev.op.Create? then FreshRow(t, ev) else TaskEffect(b.tasks[t], ev));
      if t in b.tasks { RepeatsOnExactly(b.tasks[t], b.roster, ev); }
    }
  }

  lemma PlanCancelRepeats(b: BoardView, ev: Event)
    requires CancelsPlan(ev.op)
    ensures Substance(Effect(b, ev)) == Substance(b) <==> Repeats(b, ev)
  {
    var next := Effect(b, ev);
    assert next.tasks.Keys == b.tasks.Keys;
    if Repeats(b, ev) {
      assert Substance(next).tasks == Substance(b).tasks;
    } else {
      var t :| t in b.tasks && b.tasks[t].status != Cancelled;
      assert Substance(next).tasks[t].status == Cancelled;
      assert Substance(b).tasks[t].status != Cancelled;
    }
  }

  /** A human may escalate any task on the board, any number of times. */
  lemma EscalationAccepted(log: seq<Event>, ev: Event, t: string)
    requires GateBuilt(log) && t in Raw(log).tasks
    requires ev.actor.role == Human && ev.op == Escalate && ev.task == Some(t) && ev.seqNo.Some?
    requires forall e | e in log :: SortKey(e) < SortKey(ev)
    ensures GateBuilt(log + [ev]) && t in Raw(log + [ev]).tasks && Raw(log + [ev]).tasks[t].escalated
  {
    GateReads(Raw(log), t);
    GateBuiltExtend(log, ev);
    assert (log + [ev])[..|log|] == log;
    EffectRow(Raw(log), ev, t);
  }

  /** Such repeats are reachable: a second escalation passes the gate and moves nothing. */
  lemma SecondEscalationIsInert(log: seq<Event>, ev: Event, t: string)
    requires GateBuilt(log) && t in Raw(log).tasks && Raw(log).tasks[t].escalated
    requires ev.actor.role == Human && ev.op == Escalate && ev.task == Some(t) && ev.seqNo.Some?
    requires forall e | e in log :: SortKey(e) < SortKey(ev)
    ensures GateBuilt(log + [ev]) && Substance(Raw(log + [ev])) == Substance(Raw(log))
  {
    EscalationAccepted(log, ev, t);
    var longer := log + [ev];
    assert longer[..|log|] == log && longer[..|longer|] == longer;
    InertExactlyOnRepeats(longer, |log|);
  }
}
