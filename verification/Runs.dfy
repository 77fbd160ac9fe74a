/** Gate-built logs: every log whose events each passed the gate against the prefix before it. */
module Runs {
  import opened Wrappers
  import opened Events
  import opened State
  import opened Legality
  import opened Reducer

  /** The gate lets the event through on a raw board, whose derived form is what the gate reads. */
  predicate Accepts(b: BoardView, ev: Event) { Gate(Derive(b), ev.actor, ev.op, ev.task).None? }

  /** Rows carry strictly growing sequence numbers. */
  ghost predicate SeqOrdered(log: seq<Event>) {
    && (forall i | 0 <= i < |log| :: log[i].seqNo.Some?)
    && (forall i, j | 0 <= i < j < |log| :: SortKey(log[i]) < SortKey(log[j]))
  }

  /** The first `n` events each passed the gate against exactly the events before them. */
  ghost predicate AcceptedUpTo(log: seq<Event>, n: nat)
    requires n <= |log|
  {
    n == 0 || (AcceptedUpTo(log, n - 1) && Accepts(Raw(log[..n - 1]), log[n - 1]))
  }

  ghost predicate GateBuilt(log: seq<Event>) { SeqOrdered(log) && AcceptedUpTo(log, |log|) }

  /** The raw board after the first `n` events of a log. */
  function At(log: seq<Event>, n: nat): BoardView
    requires n <= |log|
  {
    Raw(log[..n])
  }

  lemma AtStep(log: seq<Event>, n: nat)
    requires n < |log|
    ensures At(log, n + 1) == Effect(At(log, n), log[n])
  {
    assert log[..n + 1][..n] == log[..n];
  }

  /** The reducer reads a gate-built log in the order it was written. */
  lemma FoldedIsDerived(log: seq<Event>)
    requires GateBuilt(log)
    ensures Folded(log) == Derive(Raw(log))
  {
    assert Sorted(log);
    SortOfSorted(log);
  }

  lemma {:induction false} AcceptedBefore(log: seq<Event>, m: nat, n: nat)
    requires m <= n <= |log| && AcceptedUpTo(log, n)
    ensures AcceptedUpTo(log, m)
    decreases n
  {
    if m < n { AcceptedBefore(log, m, n - 1); }
  }

  /** Event `i` of a gate-built log passed the gate at prefix `i`, and took the board one step on. */
  lemma StepAccepted(log: seq<Event>, i: nat)
    requires GateBuilt(log) && i < |log|
    ensures Accepts(At(log, i), log[i])
    ensures At(log, i + 1) == Effect(At(log, i), log[i])
  {
    AcceptedBefore(log, i + 1, |log|);
    AtStep(log, i);
  }

  lemma {:induction false} SamePrefixAccepted(a: seq<Event>, b: seq<Event>, n: nat)
    requires n <= |a| && n <= |b| && a[..n] == b[..n] && AcceptedUpTo(a, n)
    ensures AcceptedUpTo(b, n)
    decreases n
  {
    if n > 0 {
      assert a[..n - 1] == a[..n][..n - 1] == b[..n][..n - 1] == b[..n - 1];
      assert a[n - 1] == a[..n][n - 1] == b[n - 1];
      SamePrefixAccepted(a, b, n - 1);
    }
  }

  /** Appending an event the gate accepts, under a later sequence number, gives a gate-built log. */
  lemma GateBuiltExtend(log: seq<Event>, ev: Event)
    requires GateBuilt(log) && Accepts(Raw(log), ev) && ev.seqNo.Some?
    requires forall e | e in log :: SortKey(e) < SortKey(ev)
    ensures GateBuilt(log + [ev])
  {
    ExtendOrdered(log, ev);
    var longer := log + [ev];
    assert log[..|log|] == log && longer[..|log|] == log;
    SamePrefixAccepted(log, longer, |log|);
  }

  lemma ExtendOrdered(log: seq<Event>, ev: Event)
    requires SeqOrdered(log) && ev.seqNo.Some? && forall e | e in log :: SortKey(e) < SortKey(ev)
    ensures SeqOrdered(log + [ev])
  {
  }

  /** A prefix of a gate-built log is gate-built. */
  lemma GateBuiltPrefix(log: seq<Event>, n: nat)
    requires GateBuilt(log) && n <= |log|
    ensures GateBuilt(log[..n])
  {
    AcceptedBefore(log, n, |log|);
    assert log[..n][..n] == log[..n];
    SamePrefixAccepted(log, log[..n], n);
  }

  // ---- what one event does to one row -------------------------------------------------------------

  /** The next state of an existing row. */
  function NextRow(row: TaskRow, t: string, ev: Event): TaskRow {
    if CancelsPlan(ev.op) then CancelRow(row, ev)
    else if !Names(ev, t) || !HasRule(ev.op) then row
    else if ev.op.Create? then FreshRow(t, ev)
    else TaskEffect(row, ev)
  }

  /** Pointwise reading of `Effect`: an event touches the row it names, a plan cancel every row. */
  lemma EffectRow(b: BoardView, ev: Event, t: string)
    requires t in b.tasks
    ensures t in Effect(b, ev).tasks
    ensures Effect(b, ev).tasks[t] == NextRow(b.tasks[t], t, ev)
  {
  }

  lemma EffectDomain(b: BoardView, ev: Event)
    ensures Effect(b, ev).tasks.Keys == b.tasks.Keys + (if ev.op.Create? && ev.task.Some? then {ev.task.value} else {})
    ensures Effect(b, ev).roster == b.roster + (if ev.op.Register? then {ev.op.workerId} else {})
  {
  }

  /** What the gate reads of a derived row besides its status is the raw row; its status differs from
      the raw one only where a created or reopened task shows as ready. */
  lemma GateReads(b: BoardView, t: string)
    ensures Derive(b).tasks.Keys == b.tasks.Keys && Derive(b).roster == b.roster
    ensures t in b.tasks ==>
      var row, out := b.tasks[t], Derive(b).tasks[t];
      && out.owner == row.owner && out.pruned == row.pruned && out.latestReview == row.latestReview
      && out.dependsOn == row.dependsOn && out.spec == row.spec && out.triedBy == row.triedBy
      && (out.status == row.status
          || (out.status == Ready && (row.status == Created || row.status == Reopened) && row.owner.None? && !row.pruned
              && Fires(b, row)))
  {
    if t in b.tasks {
      DeriveChangesOnlyWaiting(b, t);
      assert Derive(b).tasks[t] == DeriveRow(b, b.tasks[t]);
    }
  }

  /** What acceptance says of the raw row an event names, although the gate read the derived one. It
      contains the from-state check of each effect. */
  predicate Permits(row: TaskRow, roster: set<string>, ev: Event) {
    match ev.op
    case Assign(w) =>
      w in roster && row.owner.None? && (row.status == Ready || row.status == Created || row.status == Reopened)
    case Reassign(w) => w in roster && Running(row.status)
    case Reject => row.status == Assigned
    case Accept => row.status == Assigned
    case Block(_, _) => row.status == InProgress
    case Unblock => row.status == Blocked
    case PostResult(_) => ev.actor.role == Worker && row.owner == Some(ev.actor.id)
    case Override(to, _) =>
      (match to
       case ToDone => row.status != Cancelled && row.latestReview == Some(Passed)
       case ToReopened => row.status == InReview
       case ToCancelled =>
         ev.actor.role == Human && !row.pruned && row.status != Done && row.status != Failed && row.status != Cancelled
       case ToOther(_) => true)
    case Fail => row.status == InProgress || row.status == Blocked
    case Prune => row.status != Done && row.status != Cancelled && !row.pruned
    case _ => true
  }

  /** Gate and fold agree: an accepted event names a task on the board (or creates it), and the raw row
      passes the effect's own check. */
  lemma AcceptedPermits(b: BoardView, ev: Event)
    requires Accepts(b, ev) && HasRule(ev.op)
    ensures ev.op.Create? ==> ev.task.Some?
    ensures ev.op.Register? ==> ev.op.workerId !in b.roster
    ensures !ev.op.Create? && !ev.op.Register? && !CancelsPlan(ev.op) ==>
              Known(b, ev.task) && Permits(b.tasks[ev.task.value], b.roster, ev)
  {
    if ev.task.Some? {
      GateReads(b, ev.task.value);
    }
  }

  /** The same, read along a gate-built log. */
  lemma StepPermits(log: seq<Event>, i: nat)
    requires GateBuilt(log) && i < |log|
    ensures At(log, i + 1) == Effect(At(log, i), log[i]) && Accepts(At(log, i), log[i])
    ensures HasRule(log[i].op) ==>
      && (log[i].op.Create? ==> log[i].task.Some?)
      && (log[i].op.Register? ==> log[i].op.workerId !in At(log, i).roster)
      && (!log[i].op.Create? && !log[i].op.Register? && !CancelsPlan(log[i].op) ==>
            Known(At(log, i), log[i].task)
            && Permits(At(log, i).tasks[log[i].task.value], At(log, i).roster, log[i]))
  {
    StepAccepted(log, i);
    if HasRule(log[i].op) { AcceptedPermits(At(log, i), log[i]); }
  }

  /** What the rule of an operation asks, said of the raw board alone. */
  predicate Allowed(b: BoardView, ev: Event)
    requires HasRule(ev.op)
  {
    match ev.op
    case Create(_, _, _) => ev.task.Some?
    case Register(w) => w !in b.roster
    case Revise(_) => true
    case _ => Known(b, ev.task) && AllowedOn(b, ev.task.value, ev)
  }

  predicate AllowedOn(b: BoardView, t: string, ev: Event)
    requires t in b.tasks
  {
    var row := b.tasks[t];
    match ev.op
    case Assign(w) => w in b.roster && row.owner.None? && (row.status == Ready || (Waiting(row) && Fires(b, row)))
    case Prune =>
      Permits(row, b.roster, ev) && forall j :: j in b.tasks ==> !WouldBreak(b, t, b.tasks[j])
    case Override(to, why) =>
      Permits(row, b.roster, ev) && (to == ToCancelled ==> why.Some? && !Blank(why.value))
    case PostResult(_) => true
    case _ => Permits(row, b.roster, ev)
  }

  lemma SameBreaks(b: BoardView, t: string, j: string)
    requires j in b.tasks
    ensures j in Derive(b).tasks && (WouldBreak(Derive(b), t, Derive(b).tasks[j]) <==> WouldBreak(b, t, b.tasks[j]))
  {
    GateReads(b, j);
    LiveDepsDerived(b, b.tasks[j]);
    assert LiveDeps(Derive(b), Derive(b).tasks[j]) == LiveDeps(Derive(b), b.tasks[j]);
  }

  lemma PruneGuardOnRaw(b: BoardView, ev: Event)
    requires ev.op.Prune?
    ensures Guard(Derive(b), ev.actor, ev.op, ev.task).None? <==> Allowed(b, ev)
  {
    if Known(b, ev.task) {
      GateReads(b, ev.task.value);
      forall j | j in b.tasks
        ensures WouldBreak(Derive(b), ev.task.value, Derive(b).tasks[j]) <==> WouldBreak(b, ev.task.value, b.tasks[j])
      {
        SameBreaks(b, ev.task.value, j);
      }
    }
  }

  lemma ReadyOnRaw(b: BoardView, t: string)
    requires t in b.tasks
    ensures Derive(b).tasks[t].status == Ready <==>
            b.tasks[t].status == Ready || (Waiting(b.tasks[t]) && Fires(b, b.tasks[t]))
  {
    assert Derive(b).tasks[t] == DeriveRow(b, b.tasks[t]);
  }

  lemma OverrideOnRaw(b: BoardView, ev: Event)
    requires HasRule(ev.op) && ev.op.Override?
    ensures Guard(Derive(b), ev.actor, ev.op, ev.task).None? <==> Allowed(b, ev)
  {
    if Known(b, ev.task) { GateReads(b, ev.task.value); }
  }

  lemma AssignOnRaw(b: BoardView, ev: Event)
    requires ev.op.Assign?
    ensures Guard(Derive(b), ev.actor, ev.op, ev.task).None? <==> Allowed(b, ev)
  {
    if Known(b, ev.task) {
      GateReads(b, ev.task.value);
      ReadyOnRaw(b, ev.task.value);
    }
  }

  lemma GuardOnRaw(b: BoardView, ev: Event)
    requires HasRule(ev.op) && !ev.op.Prune? && !ev.op.Override? && !ev.op.Assign?
    ensures Guard(Derive(b), ev.actor, ev.op, ev.task).None? <==> Allowed(b, ev)
  {
    if Known(b, ev.task) { GateReads(b, ev.task.value); }
  }

  /** The gate reads the derived board, yet what it decides can be read off the raw one: authority,
      ownership, and the rule's own conditions there, `ready` being a join that has fired. */
  lemma GateOnRaw(b: BoardView, ev: Event)
    ensures Accepts(b, ev)
            <==> && MayEmit(ev.actor.role, TypeOf(ev.op))
                 && !OwnershipViolation(b, ev.actor, TypeOf(ev.op), ev.task)
                 && (if HasRule(ev.op) then Allowed(b, ev) else Whitelisted(TypeOf(ev.op)))
  {
    if ev.task.Some? { GateReads(b, ev.task.value); }
    if HasRule(ev.op) {
      if ev.op.Prune? {
        PruneGuardOnRaw(b, ev);
      } else if ev.op.Override? {
        OverrideOnRaw(b, ev);
      } else if ev.op.Assign? {
        AssignOnRaw(b, ev);
      } else {
        GuardOnRaw(b, ev);
      }
    }
  }

  /** The operations whose guard starts by looking the task up; a close of an unknown task reads as illegal. */
  predicate LooksUp(op: Op) {
    !op.Create? && !op.Register? && !op.Revise? && !(op.Override? && op.status == ToDone)
  }

  predicate Hands(op: Op, worker: string) { op == Assign(worker) || op == Reassign(worker) }

  predicate Abandons(op: Op) { op.Override? && op.status == ToCancelled }

  /** The actor may not emit the event: by role, by ownership, or, for an abandon of a known task, by not
      being human. */
  predicate Unauthorized(b: BoardView, ev: Event) {
    || !MayEmit(ev.actor.role, TypeOf(ev.op)) || OwnershipViolation(b, ev.actor, TypeOf(ev.op), ev.task)
    || (Known(b, ev.task) && Abandons(ev.op) && ev.actor.role != Human)
  }

  /** The event names a transition the raw board does not allow, apart from what the other codes say. */
  predicate Misplaced(b: BoardView, ev: Event) {
    if !HasRule(ev.op) then !Whitelisted(TypeOf(ev.op))
    else match ev.op
      case Create(_, _, _) => ev.task.None?
      case Register(w) => w in b.roster
      case Assign(_) => false
      case Reassign(w) => Known(b, ev.task) && w in b.roster && !Running(b.tasks[ev.task.value].status)
      case _ => !Allowed(b, ev) && (LooksUp(ev.op) ==> Known(b, ev.task))
  }

  /** What each refusal code says, read on the raw board: the six cases are exact, and what falls under none
      of them is accepted. */
  lemma CodesMean(b: BoardView, ev: Event)
    ensures var known, code := Known(b, ev.task), Gate(Derive(b), ev.actor, ev.op, ev.task);
            var may := !Unauthorized(b, ev);
            && (code == Some(NotAuthorized) <==> !may)
            && (code == Some(UnknownTask) <==> may && HasRule(ev.op) && LooksUp(ev.op) && !known)
            && (code == Some(UnknownWorker) <==> may && known && exists w :: Hands(ev.op, w) && w !in b.roster)
            && (code == Some(AlreadyOwned) <==> may && known && ev.op.Assign? && ev.op.worker in b.roster
                                                && b.tasks[ev.task.value].owner.Some?)
            && (code == Some(NotReady) <==> may && known && ev.op.Assign? && ev.op.worker in b.roster
                                            && b.tasks[ev.task.value].owner.None? && !Allowed(b, ev))
            && (code == Some(IllegalTransition) <==> may && Misplaced(b, ev))
  {
    if ev.task.Some? { GateReads(b, ev.task.value); }
    if ev.op.Assign? {
      assert Hands(ev.op, ev.op.worker);
      AssignOnRaw(b, ev);
    } else if ev.op.Reassign? {
      assert Hands(ev.op, ev.op.to);
    } else if ev.op.Prune? {
      PruneGuardOnRaw(b, ev);
    } else if ev.op.Override? && HasRule(ev.op) {
      OverrideOnRaw(b, ev);
    } else if HasRule(ev.op) {
      GuardOnRaw(b, ev);
    }
  }

  /** An accepted assignment of an untried task finds its join fired. */
  lemma AcceptedAssignment(b: BoardView, ev: Event)
    requires Accepts(b, ev) && ev.op.Assign? && Known(b, ev.task)
    ensures var row := b.tasks[ev.task.value]; row.status != Ready ==> Fires(b, row) && !row.pruned
  {
    GateReads(b, ev.task.value);
  }

  /** A task is on the board once its creation has been accepted. */
  lemma ExistsAfterCreation(log: seq<Event>, t: string, n: nat)
    requires n <= |log|
    ensures t in At(log, n).tasks <==> exists i | 0 <= i < n :: log[i].op.Create? && Names(log[i], t)
  {
    if n > 0 {
      ExistsAfterCreation(log, t, n - 1);
      AtStep(log, n - 1);
      EffectDomain(At(log, n - 1), log[n - 1]);
    }
  }
}
