/** The locks of the operation service: one call at a time inside a task, no lock without a caller inside. */
module Locks {
  import opened Wrappers
  import opened Operations
  import opened Concurrency

  /** Between taking its task's lock and being answered. */
  predicate Inside(c: Caller) {
    c.phase.HoldsTask? || c.phase.HoldsAll? || c.phase.Unreplayed? || c.phase.Owning? || c.phase.Going?
  }

  predicate HoldsOwn(s: Sys, p: Pid)
    requires p in s.callers
  {
    s.callers[p].task in s.locks && s.locks[s.callers[p].task] == p
  }

  /** The lock is a task's and its holder is inside that task; or the launch lock and its holder a launch. */
  predicate WellHeld(s: Sys, l: LockName)
    requires l in s.locks
  {
    var p := s.locks[l];
    p in s.callers && Inside(s.callers[p])
    && if l.TaskLock? then s.callers[p].task == l else s.callers[p].request.kind == Launch
  }

  /** Whoever is inside holds its task's lock, and every lock is held by a caller inside. */
  ghost predicate LockInv(s: Sys) {
    && (forall p | p in s.callers :: s.callers[p].task.TaskLock? && (Inside(s.callers[p]) ==> HoldsOwn(s, p)))
    && (forall l | l in s.locks :: WellHeld(s, l))
  }

  /** A caller moves on inside. */
  lemma MovesOn(s: Sys, p: Pid, next: Phase, s': Sys)
    requires LockInv(s) && p in s.callers && Inside(s.callers[p]) && Inside(s.callers[p].(phase := next))
    requires s'.callers == s.callers[p := s.callers[p].(phase := next)] && s'.locks == s.locks
    ensures LockInv(s')
  {
    forall q | q in s'.callers
      ensures s'.callers[q].task.TaskLock? && (Inside(s'.callers[q]) ==> HoldsOwn(s', q))
    {
      assert Inside(s.callers[q]) ==> HoldsOwn(s, q);
    }
    forall l | l in s'.locks
      ensures WellHeld(s', l)
    {
      assert WellHeld(s, l);
    }
  }

  /** A caller leaves, and all its locks fall. */
  lemma Leaves(s: Sys, p: Pid, next: Phase, s': Sys)
    requires LockInv(s) && p in s.callers && !Inside(s.callers[p].(phase := next))
    requires s'.callers == s.callers[p := s.callers[p].(phase := next)] && s'.locks == Released(s, p).locks
    ensures LockInv(s')
  {
    forall q | q in s'.callers
      ensures s'.callers[q].task.TaskLock? && (Inside(s'.callers[q]) ==> HoldsOwn(s', q))
    {
      assert Inside(s.callers[q]) ==> HoldsOwn(s, q);
    }
    forall l | l in s'.locks
      ensures WellHeld(s', l)
    {
      assert l in s.locks && s.locks[l] != p && WellHeld(s, l);
    }
  }

  /** A caller takes a free lock. */
  lemma Takes(s: Sys, p: Pid, lock: LockName, next: Phase)
    requires LockInv(s) && p in s.callers && lock !in s.locks && Inside(s.callers[p].(phase := next))
    requires if lock.TaskLock? then lock == s.callers[p].task && !Inside(s.callers[p])
             else s.callers[p].request.kind == Launch && Inside(s.callers[p])
    ensures LockInv(Take(s, p, lock, next))
  {
    var s' := Take(s, p, lock, next);
    forall q | q in s'.callers
      ensures s'.callers[q].task.TaskLock? && (Inside(s'.callers[q]) ==> HoldsOwn(s', q))
    {
      assert Inside(s.callers[q]) ==> HoldsOwn(s, q);
    }
    forall l | l in s'.locks
      ensures WellHeld(s', l)
    {
      if l != lock { assert WellHeld(s, l); }
    }
  }

  lemma EntryKeepsLocks(cap: Option<nat>, s: Sys, step: Step)
    requires LockInv(s) && (step.Arrive? || step.LockTask? || step.LockLaunch?)
    ensures LockInv(Do(cap, s, step))
  {
    match step {
      case Arrive(p, id, request, run, task) =>
        var s' := Do(cap, s, step);
        forall q | q in s'.callers
          ensures s'.callers[q].task.TaskLock? && (Inside(s'.callers[q]) ==> HoldsOwn(s', q))
        {
          assert q in s.callers && Inside(s.callers[q]) ==> HoldsOwn(s, q);
        }
        forall l | l in s'.locks
          ensures WellHeld(s', l)
        {
          assert WellHeld(s, l);
        }
      case LockTask(p) =>
        if In(s, p, Arrived) && s.callers[p].task !in s.locks {
          Takes(s, p, s.callers[p].task, HoldsTask);
        }
      case LockLaunch(p) =>
        if In(s, p, HoldsTask) {
          if s.callers[p].request.kind != Launch {
            MovesOn(s, p, HoldsAll, Do(cap, s, step));
          } else if LaunchLock !in s.locks {
            Takes(s, p, LaunchLock, HoldsAll);
          }
        }
    }
  }

  /** What a step of a caller that has entered does to it and its locks: it stays inside and keeps them, or leaves
      and lets them go. */
  predicate StaysOrLeaves(s: Sys, p: Pid, s': Sys) {
    s' == s
    || (p in s.callers && p in s'.callers
        && s'.callers == s.callers[p := s.callers[p].(phase := s'.callers[p].phase)]
        && if Inside(s'.callers[p]) then Inside(s.callers[p]) && s'.locks == s.locks
           else s'.locks == Released(s, p).locks)
  }

  lemma ReceiptStepStays(cap: Option<nat>, s: Sys, step: Step)
    requires step.Replay? || step.CreateReceipt? || step.Die?
    ensures StaysOrLeaves(s, step.p, Do(cap, s, step))
  {
  }

  lemma WorkStepStays(cap: Option<nat>, s: Sys, step: Step)
    requires step.Prepare? || step.RunCommand? || step.Settle?
    ensures StaysOrLeaves(s, step.p, Do(cap, s, step))
  {
  }

  lemma RestKeepsLocks(s: Sys, p: Pid, s': Sys)
    requires LockInv(s) && StaysOrLeaves(s, p, s')
    ensures LockInv(s')
  {
    if s' != s {
      if Inside(s'.callers[p]) {
        MovesOn(s, p, s'.callers[p].phase, s');
      } else {
        Leaves(s, p, s'.callers[p].phase, s');
      }
    }
  }

  lemma {:induction false} RunKeepsLocks(cap: Option<nat>, live: set<Seat>, steps: seq<Step>)
    ensures LockInv(Run(cap, live, steps))
  {
    if steps != [] {
      var s, step := Run(cap, live, steps[..|steps| - 1]), steps[|steps| - 1];
      RunKeepsLocks(cap, live, steps[..|steps| - 1]);
      if step.WorkerExits? {
        assert forall l | l in s.locks :: WellHeld(s, l);
      } else if step.Arrive? || step.LockTask? || step.LockLaunch? {
        EntryKeepsLocks(cap, s, step);
      } else {
        if step.Replay? || step.CreateReceipt? || step.Die? {
          ReceiptStepStays(cap, s, step);
        } else {
          WorkStepStays(cap, s, step);
        }
        RestKeepsLocks(s, step.p, Do(cap, s, step));
      }
    }
  }

  /** On every run, no two calls are inside one task at once: none looks for a receipt, runs a command or writes an
      outcome while another call on the task is at it. */
  lemma OneCallPerTask(cap: Option<nat>, live: set<Seat>, steps: seq<Step>, p: Pid, q: Pid)
    requires var s := Run(cap, live, steps);
             && p in s.callers && q in s.callers && Inside(s.callers[p]) && Inside(s.callers[q])
             && s.callers[p].task == s.callers[q].task
    ensures p == q
  {
    RunKeepsLocks(cap, live, steps);
    assert HoldsOwn(Run(cap, live, steps), p) && HoldsOwn(Run(cap, live, steps), q);
  }

  /** And no lock outlives its caller: one that was answered, or died, holds none. */
  lemma NoLockIsLeft(cap: Option<nat>, live: set<Seat>, steps: seq<Step>, l: LockName)
    requires l in Run(cap, live, steps).locks
    ensures var s := Run(cap, live, steps);
            && s.locks[l] in s.callers
            && !s.callers[s.locks[l]].phase.Answered? && !s.callers[s.locks[l]].phase.Dead?
            && !s.callers[s.locks[l]].phase.Arrived?
  {
    RunKeepsLocks(cap, live, steps);
    assert WellHeld(Run(cap, live, steps), l);
  }
}
