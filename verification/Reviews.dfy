/** A close stands behind a review that is still current. */
module Reviews {
  import opened Wrappers
  import opened Events
  import opened State
  import opened Runs

  predicate PassOf(ev: Event, t: string) { ev.op.PassReview? && Names(ev, t) }

  predicate CloseOf(ev: Event, t: string) { ev.op.Override? && ev.op.status == ToDone && Names(ev, t) }

  /** The events after which an earlier verdict on `t` no longer stands. */
  predicate Supersedes(ev: Event, t: string) {
    Names(ev, t) && (ev.op.PostResult? || ev.op.FailReview? || ev.op.Create?
                     || (ev.op.Override? && ev.op.status == ToReopened))
  }

  /** Before event `n`, the latest verdict on `t` is a pass, and nothing has superseded it. */
  ghost predicate PassIsCurrent(log: seq<Event>, n: nat, t: string)
    requires n <= |log|
  {
    exists j | 0 <= j < n :: PassOf(log[j], t) && forall i | j < i < n :: !Supersedes(log[i], t)
  }

  lemma VerdictStep(log: seq<Event>, i: nat, t: string)
    requires GateBuilt(log) && i < |log|
    ensures t in At(log, i + 1).tasks <==> t in At(log, i).tasks || (log[i].op.Create? && Names(log[i], t))
    ensures t in At(log, i + 1).tasks ==>
      var next := At(log, i + 1).tasks[t];
      && (PassOf(log[i], t) ==> next.latestReview == Some(Passed))
      && (Supersedes(log[i], t) ==> next.latestReview != Some(Passed))
      && (!PassOf(log[i], t) && !Supersedes(log[i], t) ==>
            t in At(log, i).tasks && next.latestReview == At(log, i).tasks[t].latestReview)
    ensures (PassOf(log[i], t) || Supersedes(log[i], t)) ==> t in At(log, i + 1).tasks
  {
    StepPermits(log, i);
    EffectDomain(At(log, i), log[i]);
    if t in At(log, i).tasks { EffectRow(At(log, i), log[i], t); }
  }

  /** The board calls the review of `t` passed exactly when the log holds a pass that still stands. */
  lemma {:induction false} PassedMeansCurrentPass(log: seq<Event>, n: nat, t: string)
    requires GateBuilt(log) && n <= |log|
    ensures (t in At(log, n).tasks && At(log, n).tasks[t].latestReview == Some(Passed)) <==> PassIsCurrent(log, n, t)
    decreases n
  {
    if n > 0 {
      PassedMeansCurrentPass(log, n - 1, t);
      VerdictStep(log, n - 1, t);
      if PassIsCurrent(log, n - 1, t) && !Supersedes(log[n - 1], t) {
        var j :| 0 <= j < n - 1 && PassOf(log[j], t) && forall i | j < i < n - 1 :: !Supersedes(log[i], t);
        assert forall i | j < i < n :: !Supersedes(log[i], t);
      }
      if PassIsCurrent(log, n, t) && !PassOf(log[n - 1], t) {
        var j :| 0 <= j < n && PassOf(log[j], t) && forall i | j < i < n :: !Supersedes(log[i], t);
        assert j < n - 1 && !Supersedes(log[n - 1], t);
      }
    }
  }

  /** Every accepted close has behind it a pass with no later result, failed review, reopen or
      re-creation; it never closes a cancelled task; and it leaves the task done. */
  lemma DoneOnlyBehindCurrentReview(log: seq<Event>, n: nat, t: string)
    requires GateBuilt(log) && n < |log| && CloseOf(log[n], t)
    ensures PassIsCurrent(log, n, t)
    ensures t in At(log, n).tasks && At(log, n).tasks[t].status != Cancelled
    ensures t in At(log, n + 1).tasks && At(log, n + 1).tasks[t].status == Done
  {
    StepPermits(log, n);
    EffectRow(At(log, n), log[n], t);
    PassedMeansCurrentPass(log, n, t);
  }

  /** The events that take a task out of done. */
  predicate Unsettles(ev: Event, t: string) {
    CancelsPlan(ev.op) || (Names(ev, t) && (ev.op.PostResult? || ev.op.Create?))
  }

  lemma DoneStep(log: seq<Event>, i: nat, t: string)
    requires GateBuilt(log) && i < |log| && t in At(log, i + 1).tasks
    ensures At(log, i + 1).tasks[t].status == Done <==>
            CloseOf(log[i], t) || (t in At(log, i).tasks && At(log, i).tasks[t].status == Done && !Unsettles(log[i], t))
  {
    StepPermits(log, i);
    EffectDomain(At(log, i), log[i]);
    if t in At(log, i).tasks { EffectRow(At(log, i), log[i], t); }
  }

  /** A task shown as done was closed behind a current review, and neither re-posted, re-created nor
      caught by a plan cancel since. */
  lemma {:induction false} DoneHasReview(log: seq<Event>, n: nat, t: string) returns (close: nat)
    requires GateBuilt(log) && n <= |log| && t in At(log, n).tasks && At(log, n).tasks[t].status == Done
    ensures close < n && CloseOf(log[close], t) && PassIsCurrent(log, close, t)
    ensures forall i | close < i < n :: !Unsettles(log[i], t)
    decreases n
  {
    DoneStep(log, n - 1, t);
    if CloseOf(log[n - 1], t) {
      close := n - 1;
      DoneOnlyBehindCurrentReview(log, close, t);
    } else {
      close := DoneHasReview(log, n - 1, t);
    }
  }
}
