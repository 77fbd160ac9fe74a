/** The board as a reader of the log sees it: on a gate-built log every field of a task is what the latest
    event that writes the field wrote, whatever state the task was in. No from-state check of an effect is
    ever what decides. */
module History {
  import opened Wrappers
  import opened Events
  import opened State
  import opened Legality
  import opened Runs
  import opened Ownership

  /** The value the latest of the first `n` events to write a field of `t` wrote there. */
  function LastWritten<T>(log: seq<Event>, n: nat, t: string, write: (string, Event) -> Option<T>): Option<T>
    requires n <= |log|
  {
    if n == 0 then None
    else if write(t, log[n - 1]).Some? then write(t, log[n - 1])
    else LastWritten(log, n - 1, t, write)
  }

  function StatusWritten(t: string, ev: Event): Option<Status> {
    if CancelsPlan(ev.op) then Some(Cancelled)
    else if !Names(ev, t) then None
    else match ev.op
      case Create(_, _, _) => Some(Created)
      case Assign(_) => Some(Assigned)
      case Reassign(_) => Some(Assigned)
      case Reject => Some(Ready)
      case Accept => Some(InProgress)
      case Unblock => Some(InProgress)
      case Block(_, _) => Some(Blocked)
      case PostResult(_) => Some(InReview)
      case Fail => Some(Failed)
      case Override(to, _) =>
        (match to
         case ToDone => Some(Done)
         case ToReopened => Some(Reopened)
         case ToCancelled => Some(Cancelled)
         case ToOther(_) => None)
      case _ => None
  }

  function OwnerWritten(t: string, ev: Event): Option<Option<string>> {
    if !Names(ev, t) then None
    else match ev.op
      case Create(_, _, _) => Some(None)
      case Assign(w) => Some(Some(w))
      case Reassign(w) => Some(Some(w))
      case Reject => Some(None)
      case Override(to, _) => if to == ToReopened || to == ToCancelled then Some(None) else None
      case _ => None
  }

  function ReviewWritten(t: string, ev: Event): Option<Option<Verdict>> {
    if !Names(ev, t) then None
    else match ev.op
      case Create(_, _, _) => Some(None)
      case PostResult(_) => Some(None)
      case Override(to, _) => if to == ToReopened then Some(None) else None
      case PassReview => Some(Some(Passed))
      case FailReview => Some(Some(Refuted))
      case _ => None
  }

  function ResultWritten(t: string, ev: Event): Option<Option<string>> {
    if !Names(ev, t) then None
    else match ev.op
      case Create(_, _, _) => Some(None)
      case PostResult(refs) => Some(if refs == [] then None else Some(refs[0]))
      case _ => None
  }

  /** Every move of the status clears the blocker, but a block, which sets it, and the plan-wide cancel. */
  function BlockerWritten(t: string, ev: Event): Option<Blocker> {
    if !Names(ev, t) || StatusWritten(t, ev).None? || CancelsPlan(ev.op) then None
    else if ev.op.Block? then Some(Blocker(Some(ev.op.reason), ev.op.needs))
    else Some(NO_BLOCKER)
  }

  function PriorityWritten(t: string, ev: Event): Option<Priority> {
    if !Names(ev, t) then None
    else match ev.op
      case Create(_, _, _) => Some(Normal)
      case SetPriority(p) => Some(p)
      case _ => None
  }

  function PrunedWritten(t: string, ev: Event): Option<bool> {
    if !Names(ev, t) then None else if ev.op.Create? then Some(false) else if ev.op.Prune? then Some(true) else None
  }

  function EscalatedWritten(t: string, ev: Event): Option<bool> {
    if !Names(ev, t) then None else if ev.op.Create? then Some(false) else if ev.op.Escalate? then Some(true) else None
  }

  function SpecWritten(t: string, ev: Event): Option<Spec> {
    if CreationOf(ev, t) then Some(Spec(t, Some(ev.op.taskType), ev.op.readyWhen, ev.op.title)) else None
  }

  /** A field written by this event holds what it wrote; one it does not write is as it was. */
  predicate Follows<T(==)>(written: Option<T>, before: Option<T>, after: T) {
    Some(after) == if written.Some? then written else before
  }

  /** What is left of the step is one event on one row the gate has let it through to. */
  lemma FieldsStep(log: seq<Event>, n: nat, t: string)
    requires GateBuilt(log) && n < |log| && t in At(log, n + 1).tasks
    requires t in At(log, n).tasks
    ensures var ev, row, next := log[n], At(log, n).tasks[t], At(log, n + 1).tasks[t];
            && Follows(StatusWritten(t, ev), Some(row.status), next.status)
            && Follows(OwnerWritten(t, ev), Some(row.owner), next.owner)
            && Follows(ReviewWritten(t, ev), Some(row.latestReview), next.latestReview)
            && Follows(ResultWritten(t, ev), Some(row.lastResultRef), next.lastResultRef)
            && Follows(BlockerWritten(t, ev), Some(row.blocker), next.blocker)
  {
    StepPermits(log, n);
    EffectRow(At(log, n), log[n], t);
  }

  lemma MarksStep(log: seq<Event>, n: nat, t: string)
    requires GateBuilt(log) && n < |log| && t in At(log, n + 1).tasks
    requires t in At(log, n).tasks
    ensures var ev, row, next := log[n], At(log, n).tasks[t], At(log, n + 1).tasks[t];
            && Follows(PriorityWritten(t, ev), Some(row.priority), next.priority)
            && Follows(PrunedWritten(t, ev), Some(row.pruned), next.pruned)
            && Follows(EscalatedWritten(t, ev), Some(row.escalated), next.escalated)
            && Follows(SpecWritten(t, ev), Some(row.spec), next.spec)
  {
    StepPermits(log, n);
    EffectRow(At(log, n), log[n], t);
  }

  lemma FirstStep(log: seq<Event>, n: nat, t: string)
    requires GateBuilt(log) && n < |log| && t in At(log, n + 1).tasks && t !in At(log, n).tasks
    ensures CreationOf(log[n], t) && At(log, n + 1).tasks[t] == FreshRow(t, log[n])
  {
    StepAccepted(log, n);
    EffectDomain(At(log, n), log[n]);
    CreationStep(log, n, t);
  }

  /** The last writer wins, field by field. */
  lemma {:induction false} FieldsAreLastWritten(log: seq<Event>, n: nat, t: string)
    requires GateBuilt(log) && n <= |log| && t in At(log, n).tasks
    ensures var row := At(log, n).tasks[t];
            && LastWritten(log, n, t, StatusWritten) == Some(row.status)
            && LastWritten(log, n, t, OwnerWritten) == Some(row.owner)
            && LastWritten(log, n, t, ReviewWritten) == Some(row.latestReview)
            && LastWritten(log, n, t, ResultWritten) == Some(row.lastResultRef)
            && LastWritten(log, n, t, BlockerWritten) == Some(row.blocker)
    decreases n
  {
    if t in At(log, n - 1).tasks {
      FieldsAreLastWritten(log, n - 1, t);
      FieldsStep(log, n - 1, t);
    } else {
      FirstStep(log, n - 1, t);
    }
  }

  /** The same of what only marks a task, and of what creation fixed. */
  lemma {:induction false} MarksAreLastWritten(log: seq<Event>, n: nat, t: string)
    requires GateBuilt(log) && n <= |log| && t in At(log, n).tasks
    ensures var row := At(log, n).tasks[t];
            && LastWritten(log, n, t, PriorityWritten) == Some(row.priority)
            && LastWritten(log, n, t, PrunedWritten) == Some(row.pruned)
            && LastWritten(log, n, t, EscalatedWritten) == Some(row.escalated)
            && LastWritten(log, n, t, SpecWritten) == Some(row.spec)
    decreases n
  {
    if t in At(log, n - 1).tasks {
      MarksAreLastWritten(log, n - 1, t);
      MarksStep(log, n - 1, t);
    } else {
      FirstStep(log, n - 1, t);
    }
  }

  /** An event since the task's latest creation satisfies `p`. */
  ghost predicate SinceCreation(log: seq<Event>, n: nat, t: string, p: Event -> bool)
    requires n <= |log|
  {
    exists j | 0 <= j < n :: p(log[j]) && Names(log[j], t) && forall i | j < i < n :: !CreationOf(log[i], t)
  }

  lemma SinceCreationStep(log: seq<Event>, n: nat, t: string, p: Event -> bool)
    requires n < |log|
    ensures SinceCreation(log, n + 1, t, p) <==>
            (p(log[n]) && Names(log[n], t)) || (!CreationOf(log[n], t) && SinceCreation(log, n, t, p))
  {
    if SinceCreation(log, n, t, p) && !CreationOf(log[n], t) {
      var j :| 0 <= j < n && p(log[j]) && Names(log[j], t) && forall i | j < i < n :: !CreationOf(log[i], t);
      assert forall i | j < i < n + 1 :: !CreationOf(log[i], t);
    }
    if SinceCreation(log, n + 1, t, p) && !(p(log[n]) && Names(log[n], t)) {
      var j :| 0 <= j < n + 1 && p(log[j]) && Names(log[j], t) && forall i | j < i < n + 1 :: !CreationOf(log[i], t);
      assert j < n && !CreationOf(log[n], t);
    }
  }

  predicate Adds(d: string, ev: Event) { ev.op == AddDependency(d) }

  predicate HandsTo(w: string, ev: Event) { Hands(ev.op, w) }

  lemma SetsStep(log: seq<Event>, n: nat, t: string, x: string)
    requires GateBuilt(log) && n < |log| && t in At(log, n + 1).tasks
    ensures var ev, next := log[n], At(log, n + 1).tasks[t];
            && (CreationOf(ev, t) ==> next.dependsOn == {} == next.triedBy)
            && (!CreationOf(ev, t) ==>
                  && t in At(log, n).tasks
                  && (x in next.dependsOn <==> x in At(log, n).tasks[t].dependsOn || (Adds(x, ev) && Names(ev, t)))
                  && (x in next.triedBy <==> x in At(log, n).tasks[t].triedBy || (HandsTo(x, ev) && Names(ev, t))))
  {
    StepPermits(log, n);
    EffectDomain(At(log, n), log[n]);
    if t in At(log, n).tasks { EffectRow(At(log, n), log[n], t); }
  }

  /** A task depends on exactly what it was made to depend on since its creation, and exactly those workers
      were tried on it that were handed it since. */
  lemma {:induction false} SetsAreWhatWasAdded(log: seq<Event>, n: nat, t: string, x: string)
    requires GateBuilt(log) && n <= |log| && t in At(log, n).tasks
    ensures x in At(log, n).tasks[t].dependsOn <==> SinceCreation(log, n, t, ev => Adds(x, ev))
    ensures x in At(log, n).tasks[t].triedBy <==> SinceCreation(log, n, t, ev => HandsTo(x, ev))
    decreases n
  {
    SinceCreationStep(log, n - 1, t, ev => Adds(x, ev));
    SinceCreationStep(log, n - 1, t, ev => HandsTo(x, ev));
    SetsStep(log, n - 1, t, x);
    if !CreationOf(log[n - 1], t) {
      SetsAreWhatWasAdded(log, n - 1, t, x);
    } else {
      assert !Adds(x, log[n - 1]) && !HandsTo(x, log[n - 1]);
    }
  }

  /** The roster is exactly the registered workers, on any log. */
  lemma {:induction false} RosterIsWhoRegistered(log: seq<Event>, n: nat, w: string)
    requires n <= |log|
    ensures w in At(log, n).roster <==> exists i | 0 <= i < n :: log[i].op == Register(w)
    decreases n
  {
    if n > 0 {
      RosterIsWhoRegistered(log, n - 1, w);
      AtStep(log, n - 1);
      RosterStep(At(log, n - 1), log[n - 1], w);
    }
  }

  lemma RosterStep(b: BoardView, ev: Event, w: string)
    ensures w in Effect(b, ev).roster <==> w in b.roster || ev.op == Register(w)
  {
    EffectDomain(b, ev);
  }
}
