/** Joins: pruning never breaks a live one, and readiness is lost only in ways one can name. */
module Joins {
  import opened Wrappers
  import opened Events
  import opened State
  import opened Legality
  import opened Reducer
  import opened Runs
  import opened Ownership
  import opened Collections

  /** Enough live dependencies exist for the join to fire one day. */
  predicate Satisfiable(b: BoardView, row: TaskRow) { |LiveDeps(b, row)| >= ResolveK(row) }

  /** The events that restate a join: its own creation, or a further dependency where k counts them all. */
  predicate Restates(ev: Event, j: string, readyWhen: Option<int>) {
    Names(ev, j) && (ev.op.Create? || (ev.op.AddDependency? && !(readyWhen.Some? && readyWhen.value >= 1)))
  }

  /** An accepted event keeps all live dependencies of a row but the one it prunes. */
  lemma LiveDepsStep(b: BoardView, ev: Event, j: string)
    requires Accepts(b, ev) && j in b.tasks && !CreationOf(ev, j)
    ensures j in Effect(b, ev).tasks
    ensures var row, next := b.tasks[j], Effect(b, ev).tasks[j];
            && next.spec == row.spec && row.dependsOn <= next.dependsOn
            && (next.dependsOn == row.dependsOn || (ev.op.AddDependency? && Names(ev, j)))
            && (!next.pruned ==> !row.pruned)
            && LiveDeps(b, row) - (if ev.op.Prune? && ev.task.Some? then {ev.task.value} else {})
               <= LiveDeps(Effect(b, ev), next)
  {
    JoinRowStep(b, ev, j);
    EffectDomain(b, ev);
    forall d | d in LiveDeps(b, b.tasks[j]) && !(ev.op.Prune? && Names(ev, d))
      ensures d in LiveDeps(Effect(b, ev), Effect(b, ev).tasks[j])
    {
      LiveStep(b, ev, d);
    }
  }

  lemma JoinRowStep(b: BoardView, ev: Event, j: string)
    requires j in b.tasks && !CreationOf(ev, j)
    ensures j in Effect(b, ev).tasks
    ensures var row, next := b.tasks[j], Effect(b, ev).tasks[j];
            && next.spec == row.spec && row.dependsOn <= next.dependsOn
            && (next.dependsOn == row.dependsOn || (ev.op.AddDependency? && Names(ev, j)))
            && (!next.pruned ==> !row.pruned)
  {
    EffectRow(b, ev, j);
  }

  lemma LiveStep(b: BoardView, ev: Event, d: string)
    requires d in b.tasks && !b.tasks[d].pruned && !(ev.op.Prune? && Names(ev, d))
    ensures d in Effect(b, ev).tasks && !Effect(b, ev).tasks[d].pruned
  {
    EffectRow(b, ev, d);
  }

  /** The prune guard, read on the raw board: the target is not one live dependency too few for `j`. */
  lemma PruneGuard(b: BoardView, ev: Event, j: string)
    requires Accepts(b, ev) && ev.op.Prune? && j in b.tasks && ev.task.Some?
    ensures !WouldBreak(b, ev.task.value, b.tasks[j])
  {
    SameBreaks(b, ev.task.value, j);
  }

  lemma JoinStep(b: BoardView, ev: Event, j: string)
    requires Accepts(b, ev) && j in b.tasks && Satisfiable(b, b.tasks[j])
    requires !Restates(ev, j, b.tasks[j].spec.readyWhen)
    requires !Effect(b, ev).tasks[j].pruned
    ensures Satisfiable(Effect(b, ev), Effect(b, ev).tasks[j])
  {
    LiveDepsStep(b, ev, j);
    var live, after := LiveDeps(b, b.tasks[j]), LiveDeps(Effect(b, ev), Effect(b, ev).tasks[j]);
    if ev.op.Prune? && ev.task.Some? {
      PruneGuard(b, ev, j);
      SubsetSize(live - {ev.task.value}, after);
      if ev.task.value in live {
        assert |live - {ev.task.value}| == |live| - 1;
      } else {
        assert live - {ev.task.value} == live;
      }
    } else {
      assert live - {} == live;
      SubsetSize(live, after);
    }
  }

  /** Every join that had at least k live dependencies, and is itself still unpruned, keeps at least k,
      whatever is pruned, created or moved meanwhile, as long as the join is not restated. */
  lemma {:induction false} PruningNeverBreaksJoin(log: seq<Event>, m: nat, n: nat, j: string)
    requires GateBuilt(log) && m <= n <= |log| && j in At(log, m).tasks
    requires Satisfiable(At(log, m), At(log, m).tasks[j])
    requires forall i | m <= i < n :: !Restates(log[i], j, At(log, m).tasks[j].spec.readyWhen)
    ensures j in At(log, n).tasks && At(log, n).tasks[j].spec == At(log, m).tasks[j].spec
    ensures !At(log, n).tasks[j].pruned ==> Satisfiable(At(log, n), At(log, n).tasks[j])
    decreases n
  {
    if m < n {
      PruningNeverBreaksJoin(log, m, n - 1, j);
      StepAccepted(log, n - 1);
      LiveDepsStep(At(log, n - 1), log[n - 1], j);
      if !At(log, n).tasks[j].pruned {
        JoinStep(At(log, n - 1), log[n - 1], j);
      }
    }
  }

  lemma LiveDepsShrinkStep(b: BoardView, ev: Event, j: string)
    requires Accepts(b, ev) && j in b.tasks && !Settles(ev, j, b.tasks[j].dependsOn)
    ensures j in Effect(b, ev).tasks && Effect(b, ev).tasks[j].dependsOn == b.tasks[j].dependsOn
    ensures LiveDeps(Effect(b, ev), Effect(b, ev).tasks[j]) <= LiveDeps(b, b.tasks[j])
  {
    JoinRowStep(b, ev, j);
    forall d | d in LiveDeps(Effect(b, ev), Effect(b, ev).tasks[j])
      ensures d in LiveDeps(b, b.tasks[j])
    {
      LiveBefore(b, ev, d);
    }
  }

  lemma LiveBefore(b: BoardView, ev: Event, d: string)
    requires d in Effect(b, ev).tasks && !Effect(b, ev).tasks[d].pruned && !CreationOf(ev, d)
    ensures d in b.tasks && !b.tasks[d].pruned
  {
    EffectDomain(b, ev);
    EffectRow(b, ev, d);
  }

  /** No live dependency appears where neither the join nor a dependency of it is created and the join
      gains no dependency. */
  lemma {:induction false} LiveDepsOnlyShrink(log: seq<Event>, m: nat, n: nat, j: string)
    requires GateBuilt(log) && m <= n <= |log| && j in At(log, m).tasks
    requires forall i | m <= i < n :: !Settles(log[i], j, At(log, m).tasks[j].dependsOn)
    ensures j in At(log, n).tasks && At(log, n).tasks[j].dependsOn == At(log, m).tasks[j].dependsOn
    ensures LiveDeps(At(log, n), At(log, n).tasks[j]) <= LiveDeps(At(log, m), At(log, m).tasks[j])
    decreases n
  {
    if m < n {
      LiveDepsOnlyShrink(log, m, n - 1, j);
      StepAccepted(log, n - 1);
      LiveDepsShrinkStep(At(log, n - 1), log[n - 1], j);
    }
  }

  predicate Settles(ev: Event, j: string, deps: set<string>) {
    ev.task.Some? && ((ev.op.Create? && (ev.task.value == j || ev.task.value in deps))
                      || (ev.op.AddDependency? && ev.task.value == j))
  }

  /** With its dependencies settled, an unpruned join is satisfiable for good or unsatisfiable for good. */
  lemma SatisfiabilityIsSettled(log: seq<Event>, m: nat, n: nat, j: string)
    requires GateBuilt(log) && m <= n <= |log| && j in At(log, m).tasks
    requires forall i | m <= i < n :: !Settles(log[i], j, At(log, m).tasks[j].dependsOn)
    ensures j in At(log, n).tasks
    ensures !At(log, n).tasks[j].pruned ==>
              (Satisfiable(At(log, n), At(log, n).tasks[j]) <==> Satisfiable(At(log, m), At(log, m).tasks[j]))
  {
    LiveDepsOnlyShrink(log, m, n, j);
    SubsetSize(LiveDeps(At(log, n), At(log, n).tasks[j]), LiveDeps(At(log, m), At(log, m).tasks[j]));
    if Satisfiable(At(log, m), At(log, m).tasks[j]) {
      PruningNeverBreaksJoin(log, m, n, j);
    } else {
      SpecIsFixed(log, m, n, j);
    }
  }

  lemma {:induction false} SpecIsFixed(log: seq<Event>, m: nat, n: nat, j: string)
    requires GateBuilt(log) && m <= n <= |log| && j in At(log, m).tasks
    requires forall i | m <= i < n :: !CreationOf(log[i], j)
    ensures j in At(log, n).tasks && At(log, n).tasks[j].spec == At(log, m).tasks[j].spec
    decreases n
  {
    if m < n {
      SpecIsFixed(log, m, n - 1, j);
      StepAccepted(log, n - 1);
      LiveDepsStep(At(log, n - 1), log[n - 1], j);
    }
  }

  // ---- readiness -------------------------------------------------------------------------------------

  predicate ReadyNow(b: BoardView, t: string) { t in b.tasks && Derive(b).tasks[t].status == Ready }

  /** The event takes one of the row's done dependencies out of done: it re-creates it, or its owner
      posts a result on it again. */
  predicate UndoesDone(b: BoardView, ev: Event, row: TaskRow) {
    ev.task.Some? && ev.task.value in DoneDeps(b, row) && (ev.op.Create? || ev.op.PostResult?)
  }

  lemma ReadyReads(b: BoardView, t: string)
    requires t in b.tasks
    ensures ReadyNow(b, t) <==> b.tasks[t].status == Ready || (Waiting(b.tasks[t]) && Fires(b, b.tasks[t]))
  {
    ReadyOnRaw(b, t);
  }

  /** The done dependencies of a row an event does not name. */
  lemma DoneDepsStep(b: BoardView, ev: Event, t: string)
    requires Accepts(b, ev) && t in b.tasks && !Names(ev, t) && !CancelsPlan(ev.op)
    ensures t in Effect(b, ev).tasks && Effect(b, ev).tasks[t] == b.tasks[t]
    ensures var row := b.tasks[t];
            if UndoesDone(b, ev, row) then DoneDeps(Effect(b, ev), row) == DoneDeps(b, row) - {ev.task.value}
            else DoneDeps(b, row) <= DoneDeps(Effect(b, ev), row)
  {
    var row, next := b.tasks[t], Effect(b, ev);
    EffectRow(b, ev, t);
    EffectDomain(b, ev);
    if HasRule(ev.op) { AcceptedPermits(b, ev); }
    forall d | d in b.tasks
      ensures UndoesDone(b, ev, row) ==> (d in DoneDeps(next, row) <==> d in DoneDeps(b, row) && d != ev.task.value)
      ensures !UndoesDone(b, ev, row) ==> (d in DoneDeps(b, row) ==> d in DoneDeps(next, row))
    {
      EffectRow(b, ev, d);
    }
  }

  /** A ready task stops being ready under an event that does not name it exactly when the plan is
      cancelled, or its readiness is derived and the event undoes a done dependency it cannot spare. */
  lemma ReadinessLostExactly(b: BoardView, ev: Event, t: string)
    requires Accepts(b, ev) && ReadyNow(b, t) && !Names(ev, t)
    ensures !ReadyNow(Effect(b, ev), t) <==>
            CancelsPlan(ev.op)
            || (var row := b.tasks[t];
                Waiting(row) && UndoesDone(b, ev, row) && |DoneDeps(b, row)| - 1 < ResolveK(row))
  {
    var row, next := b.tasks[t], Effect(b, ev);
    ReadyReads(b, t);
    EffectRow(b, ev, t);
    ReadyReads(next, t);
    if !CancelsPlan(ev.op) {
      DoneDepsStep(b, ev, t);
      if UndoesDone(b, ev, row) {
        assert |DoneDeps(b, row) - {ev.task.value}| == |DoneDeps(b, row)| - 1;
      } else {
        SubsetSize(DoneDeps(b, row), DoneDeps(next, row));
      }
    }
  }

  /** The event leaves a ready row's readiness alone. */
  predicate Spares(b: BoardView, ev: Event, t: string, row: TaskRow) {
    !Names(ev, t) && !CancelsPlan(ev.op) && !UndoesDone(b, ev, row)
  }

  predicate SparesAt(log: seq<Event>, m: nat, i: nat, t: string)
    requires m <= |log| && i < |log| && t in At(log, m).tasks
  {
    Spares(At(log, i), log[i], t, At(log, m).tasks[t])
  }

  /** So a ready task stays ready along any accepted suffix that neither names it, nor cancels the plan,
      nor undoes one of its done dependencies. */
  lemma {:induction false} ReadinessIsStable(log: seq<Event>, m: nat, n: nat, t: string)
    requires GateBuilt(log) && m <= n <= |log| && ReadyNow(At(log, m), t)
    requires forall i | m <= i < n :: SparesAt(log, m, i, t)
    ensures ReadyNow(At(log, n), t) && At(log, n).tasks[t] == At(log, m).tasks[t]
    decreases n
  {
    if m < n {
      ReadinessIsStable(log, m, n - 1, t);
      assert SparesAt(log, m, n - 1, t);
      ReadyAfter(log, n - 1, t);
    }
  }

  lemma ReadyAfter(log: seq<Event>, n: nat, t: string)
    requires GateBuilt(log) && n < |log| && ReadyNow(At(log, n), t)
    requires Spares(At(log, n), log[n], t, At(log, n).tasks[t])
    ensures ReadyNow(At(log, n + 1), t) && At(log, n + 1).tasks[t] == At(log, n).tasks[t]
  {
    StepAccepted(log, n);
    ReadinessStep(At(log, n), log[n], t);
  }

  lemma ReadinessStep(b: BoardView, ev: Event, t: string)
    requires Accepts(b, ev) && ReadyNow(b, t) && Spares(b, ev, t, b.tasks[t])
    ensures ReadyNow(Effect(b, ev), t) && Effect(b, ev).tasks[t] == b.tasks[t]
  {
    EffectRow(b, ev, t);
    ReadinessLostExactly(b, ev, t);
  }

  /** A rejected task re-enters the pool at once: the readiness pass does not look at its join again. */
  lemma RejectedIsReadyWhateverItsJoin(log: seq<Event>, i: nat, t: string)
    requires GateBuilt(log) && i < |log| && log[i].op.Reject? && Names(log[i], t)
    ensures ReadyNow(At(log, i + 1), t) && At(log, i + 1).tasks[t].triedBy != {}
  {
    StepPermits(log, i);
    OwnershipInvariant(log, i);
    EffectRow(At(log, i), log[i], t);
    ReadyReads(At(log, i + 1), t);
  }
}
