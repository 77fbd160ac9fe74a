/** One call of the operation service on its own: the steps of `Concurrency` amount to `Execute`. */
module Calls {
  import opened Wrappers
  import opened Operations
  import opened Concurrency

  /** The state after a list of steps taken from `s`. */
  function After(cap: Option<nat>, s: Sys, steps: seq<Step>): Sys
    decreases |steps|
  {
    if steps == [] then s else After(cap, Do(cap, s, steps[0]), steps[1..])
  }

  lemma AfterCons(cap: Option<nat>, s: Sys, step: Step, rest: seq<Step>)
    ensures After(cap, s, [step] + rest) == After(cap, Do(cap, s, step), rest)
  {
    assert ([step] + rest)[1..] == rest;
  }

  lemma ThreeThen(cap: Option<nat>, s: Sys, x: Step, y: Step, z: Step, rest: seq<Step>)
    ensures After(cap, s, [x, y, z] + rest) == After(cap, Do(cap, Do(cap, Do(cap, s, x), y), z), rest)
  {
    assert [x, y, z] + rest == [x] + ([y] + ([z] + rest));
    AfterCons(cap, s, x, [y] + ([z] + rest));
    AfterCons(cap, Do(cap, s, x), y, [z] + rest);
    AfterCons(cap, Do(cap, Do(cap, s, x), y), z, rest);
  }

  lemma {:induction false} AfterLast(cap: Option<nat>, s: Sys, steps: seq<Step>, step: Step)
    ensures After(cap, s, steps + [step]) == Do(cap, After(cap, s, steps), step)
    decreases |steps|
  {
    if steps == [] {
      assert ([] + [step])[1..] == [];
    } else {
      assert (steps + [step])[1..] == steps[1..] + [step];
      AfterLast(cap, Do(cap, s, steps[0]), steps[1..], step);
    }
  }

  lemma {:induction false} AfterConcat(cap: Option<nat>, s: Sys, a: seq<Step>, b: seq<Step>)
    ensures After(cap, s, a + b) == After(cap, After(cap, s, a), b)
    decreases |a|
  {
    if a == [] {
      assert a + b == b;
    } else {
      assert (a + b)[1..] == a[1..] + b;
      AfterConcat(cap, Do(cap, s, a[0]), a[1..], b);
    }
  }

  /** A run that goes on is a run from where it was. */
  lemma {:induction false} RunGoesOn(cap: Option<nat>, live: set<Seat>, steps: seq<Step>, more: seq<Step>)
    ensures Run(cap, live, steps + more) == After(cap, Run(cap, live, steps), more)
    decreases |more|
  {
    if more == [] {
      assert steps + more == steps;
    } else {
      var init, last := more[..|more| - 1], more[|more| - 1];
      RunGoesOn(cap, live, steps, init);
      assert (steps + more)[..|steps + more| - 1] == steps + init;
      AfterLast(cap, Run(cap, live, steps), init, last);
      assert more == init + [last];
    }
  }

  // ---- the way in --------------------------------------------------------------------------------------------

  /** What one call asks: who, for which id, what, and of which task. */
  datatype Call = Call(p: Pid, id: Id, request: Request, run: string, task: string)

  function TaskOf(call: Call): LockName { TaskLock(call.run, call.task) }

  /** Nobody is in the caller's way. */
  predicate Free(s: Sys, call: Call) {
    && call.p !in s.callers && TaskOf(call) !in s.locks && LaunchLock !in s.locks
    && forall l | l in s.locks :: s.locks[l] != call.p
  }

  function Locked(s: Sys, call: Call): map<LockName, Pid> {
    var held := s.locks[TaskOf(call) := call.p];
    if call.request.kind == Launch then held[LaunchLock := call.p] else held
  }

  function At(s: Sys, call: Call, phase: Phase): Sys {
    s.(callers := s.callers[call.p := Caller(call.id, call.request, TaskOf(call), phase)])
  }

  function Entered(s: Sys, call: Call): Sys { At(s, call, HoldsAll).(locks := Locked(s, call)) }

  function WayIn(call: Call): seq<Step> {
    [Arrive(call.p, call.id, call.request, call.run, call.task), LockTask(call.p), LockLaunch(call.p)]
  }

  lemma Enters(cap: Option<nat>, s: Sys, call: Call)
    requires Free(s, call)
    ensures After(cap, s, WayIn(call)) == Entered(s, call)
  {
    var steps := WayIn(call);
    ThreeThen(cap, s, steps[0], steps[1], steps[2], []);
    assert steps == [steps[0], steps[1], steps[2]] + [];
    ArrivesAndLocks(s, call);
  }

  lemma ArrivesAndLocks(s: Sys, call: Call)
    requires Free(s, call)
    ensures DoLockLaunch(DoLockTask(DoArrive(s, call.p, call.id, call.request, TaskOf(call)), call.p), call.p)
            == Entered(s, call)
  {
    TakesTask(s, call, DoArrive(s, call.p, call.id, call.request, TaskOf(call)));
    TakesLaunch(s, call);
  }

  function TaskHeld(s: Sys, call: Call): Sys {
    At(s, call, HoldsTask).(locks := s.locks[TaskOf(call) := call.p])
  }

  lemma TakesTask(s: Sys, call: Call, arrived: Sys)
    requires Free(s, call) && arrived == At(s, call, Arrived)
    ensures DoLockTask(arrived, call.p) == TaskHeld(s, call)
  {
  }

  lemma TakesLaunch(s: Sys, call: Call)
    requires Free(s, call)
    ensures DoLockLaunch(TaskHeld(s, call), call.p) == Entered(s, call)
  {
    if call.request.kind == Launch {
      assert LaunchLock !in TaskHeld(s, call).locks;
    }
  }

  /** When it is answered, a call holds nothing, and the locks are as it found them. */
  lemma LocksFall(s: Sys, call: Call)
    requires Free(s, call)
    ensures (map l | l in Locked(s, call) && Locked(s, call)[l] != call.p :: Locked(s, call)[l]) == s.locks
  {
  }

  // ---- the command loop ----------------------------------------------------------------------------------------

  function CommandSteps(p: Pid, outcomes: seq<Exit>, seats: seq<Option<Seat>>): seq<Step>
    requires |seats| == |outcomes|
  {
    if outcomes == [] then [] else [RunCommand(p, outcomes[0], seats[0])] + CommandSteps(p, outcomes[1..], seats[1..])
  }

  /** The same call, further on in its commands: nothing but its own phase, the history and the seats differ. */
  predicate Further(s: Sys, s': Sys, p: Pid) {
    && p in s.callers && p in s'.callers && s'.receipts == s.receipts && s'.locks == s.locks
    && s'.callers == s.callers[p := s.callers[p].(phase := s'.callers[p].phase)]
  }

  lemma {:induction false} NothingLeft(cap: Option<nat>, s: Sys, p: Pid, outcomes: seq<Exit>, seats: seq<Option<Seat>>)
    requires |seats| == |outcomes| && IsGoing(s, p) && s.callers[p].phase.left == 0
    ensures After(cap, s, CommandSteps(p, outcomes, seats)) == s
  {
    if outcomes != [] {
      AfterCons(cap, s, RunCommand(p, outcomes[0], seats[0]), CommandSteps(p, outcomes[1..], seats[1..]));
      NothingLeft(cap, s, p, outcomes[1..], seats[1..]);
    }
  }

  /** The loop runs the commands up to the first failure. */
  lemma {:induction false} LoopRuns(cap: Option<nat>, s: Sys, p: Pid, outcomes: seq<Exit>, seats: seq<Option<Seat>>)
    requires |seats| == |outcomes| && IsGoing(s, p) && s.callers[p].phase.left == |outcomes|
    ensures var s' := After(cap, s, CommandSteps(p, outcomes, seats));
            && Further(s, s', p) && IsGoing(s', p) && s'.callers[p].phase.left == 0
            && s'.callers[p].phase.exits == s.callers[p].phase.exits + RanOf(outcomes)
    decreases |outcomes|
  {
    if outcomes == [] {
      assert s.callers[p].phase.exits + [] == s.callers[p].phase.exits;
    } else {
      var step := RunCommand(p, outcomes[0], seats[0]);
      AfterCons(cap, s, step, CommandSteps(p, outcomes[1..], seats[1..]));
      var next := OneCommand(s, p, outcomes[0], seats[0]);
      if outcomes[0] == Some(0) {
        LoopRuns(cap, next, p, outcomes[1..], seats[1..]);
        AppendRest(s.callers[p].phase.exits, outcomes[0], RanOf(outcomes[1..]));
      } else {
        NothingLeft(cap, next, p, outcomes[1..], seats[1..]);
      }
    }
  }

  lemma AppendRest(exits: seq<Exit>, exit: Exit, rest: seq<Exit>)
    ensures exits + [exit] + rest == exits + ([exit] + rest)
  {
  }

  lemma OneCommand(s: Sys, p: Pid, exit: Exit, seat: Option<Seat>) returns (next: Sys)
    requires IsGoing(s, p) && s.callers[p].phase.left > 0
    ensures next == DoRunCommand(s, p, exit, seat)
    ensures Further(s, next, p) && IsGoing(next, p)
    ensures next.callers[p].phase.left == if exit == Some(0) then s.callers[p].phase.left - 1 else 0
    ensures next.callers[p].phase.exits == s.callers[p].phase.exits + [exit]
  {
    next := DoRunCommand(s, p, exit, seat);
  }

  // ---- the whole call ------------------------------------------------------------------------------------------

  function Rest(call: Call, world: World, seats: seq<Option<Seat>>): seq<Step>
    requires |seats| == |world.outcomes|
  {
    CommandSteps(call.p, world.outcomes, seats) + [Settle(call.p, world.viewExit, world.isMerged)]
  }

  /** Every step one call may take, in order; those that find nothing to do change nothing. */
  function CallSteps(call: Call, world: World, seats: seq<Option<Seat>>): seq<Step>
    requires |seats| == |world.outcomes|
  {
    WayIn(call)
    + ([Replay(call.p), CreateReceipt(call.p),
        Prepare(call.p, world.permitted, world.checkExits, |world.outcomes|)]
       + Rest(call, world, seats))
  }

  /** The world permits a launch only below the cap. */
  predicate CapSeen(cap: Option<nat>, s: Sys, request: Request, world: World) {
    world.permitted && request.kind == Launch && cap.Some? ==> |s.live| < cap.value
  }

  /** What the call leaves behind: receipts and answer as `Execute` has them, every lock let go. */
  predicate Executed(s: Sys, call: Call, world: World, s': Sys) {
    && s'.receipts == Kept(s.receipts, call.id, call.request, world)
    && s'.locks == s.locks
    && s'.callers == At(s, call, Answered(Told(s.receipts, call.id, call.request, world))).callers
  }

  predicate OwnStep(step: Step, p: Pid) { !step.WorkerExits? && !step.Die? && step.p == p }

  predicate AllOwn(steps: seq<Step>, p: Pid)
    decreases |steps|
  {
    steps == [] || (OwnStep(steps[0], p) && AllOwn(steps[1..], p))
  }

  lemma {:induction false} AnsweredStays(cap: Option<nat>, s: Sys, p: Pid, steps: seq<Step>)
    requires p in s.callers && s.callers[p].phase.Answered? && AllOwn(steps, p)
    ensures After(cap, s, steps) == s
    decreases |steps|
  {
    if steps != [] {
      AnsweredStays(cap, s, p, steps[1..]);
    }
  }

  /** The rest of a call's steps are its own. */
  lemma {:induction false} RestIsOwn(p: Pid, outcomes: seq<Exit>, seats: seq<Option<Seat>>, last: seq<Step>)
    requires |seats| == |outcomes| && AllOwn(last, p)
    ensures AllOwn(CommandSteps(p, outcomes, seats) + last, p)
  {
    if outcomes == [] {
      assert [] + last == last;
    } else {
      var rest := CommandSteps(p, outcomes[1..], seats[1..]);
      RestIsOwn(p, outcomes[1..], seats[1..], last);
      assert (CommandSteps(p, outcomes, seats) + last)[1..] == rest + last;
    }
  }

  lemma TakenIsAnswered(cap: Option<nat>, s: Sys, call: Call, world: World, rest: seq<Step>)
    requires Free(s, call) && call.id in s.receipts
    requires AllOwn(rest, call.p)
    ensures Executed(s, call, world, After(cap, Entered(s, call), [Replay(call.p)] + rest))
  {
    var entered := Entered(s, call);
    var told := DoReplay(entered, call.p);
    LocksFall(s, call);
    assert Executed(s, call, world, told);
    AfterCons(cap, entered, Replay(call.p), rest);
    AnsweredStays(cap, told, call.p, rest);
  }

  /** A call that finds its id free owns a fresh receipt. */
  function Owner(s: Sys, call: Call): Sys {
    At(s, call, Owning).(locks := Locked(s, call),
                         receipts := s.receipts[call.id := Receipt(call.request, Running, [], None, false)],
                         creators := s.creators[call.id := call.p])
  }

  lemma FreeIsUnreplayed(s: Sys, call: Call)
    requires call.id !in s.receipts
    ensures DoReplay(Entered(s, call), call.p) == At(s, call, Unreplayed).(locks := Locked(s, call))
  {
  }

  lemma FreeIsOwned(s: Sys, call: Call)
    requires call.id !in s.receipts
    ensures DoCreate(At(s, call, Unreplayed).(locks := Locked(s, call)), call.p) == Owner(s, call)
  {
  }

  /** An owner that writes its receipt leaves what `Execute` leaves. */
  lemma WriteExecutes(s: Sys, call: Call, world: World, exits: seq<Exit>, working: Sys)
    requires Free(s, call) && call.id !in s.receipts && Further(Owner(s, call), working, call.p)
    ensures Executed(s, call, world, Write(Ran1(working, call.p, exits), call.p, Outcome(call.request, world)))
  {
    LocksFall(s, call);
  }

  /** From its receipt on: the check, the command loop, the end. */
  function Worked(cap: Option<nat>, owner: Sys, call: Call, world: World, seats: seq<Option<Seat>>): Sys
    requires |seats| == |world.outcomes|
  {
    var prepared := DoPrepare(cap, owner, call.p, world.permitted, world.checkExits, |world.outcomes|);
    var ran := After(cap, prepared, CommandSteps(call.p, world.outcomes, seats));
    DoSettle(ran, call.p, world.viewExit, world.isMerged)
  }

  lemma OwnedIsRun(cap: Option<nat>, s: Sys, call: Call, world: World, seats: seq<Option<Seat>>)
    requires Free(s, call) && call.id !in s.receipts && CapSeen(cap, s, call.request, world)
    requires |seats| == |world.outcomes|
    ensures Executed(s, call, world, Worked(cap, Owner(s, call), call, world, seats))
  {
    var p, owner := call.p, Owner(s, call);
    var prepared := DoPrepare(cap, owner, p, world.permitted, world.checkExits, |world.outcomes|);
    if world.permitted {
      assert prepared == To(Ran1(owner, p, world.checkExits), p, Going(|world.outcomes|, world.checkExits, false));
      LoopRuns(cap, prepared, p, world.outcomes, seats);
      var ran := After(cap, prepared, CommandSteps(p, world.outcomes, seats));
      SettleExecutes(s, call, world, ran);
    } else {
      WriteExecutes(s, call, world, world.checkExits, owner);
      RestIsOwn(p, world.outcomes, seats, []);
      assert CommandSteps(p, world.outcomes, seats) + [] == CommandSteps(p, world.outcomes, seats);
      AnsweredStays(cap, prepared, p, CommandSteps(p, world.outcomes, seats));
    }
  }

  lemma SettleExecutes(s: Sys, call: Call, world: World, ran: Sys)
    requires Free(s, call) && call.id !in s.receipts && world.permitted && Further(Owner(s, call), ran, call.p)
    requires IsGoing(ran, call.p) && ran.callers[call.p].phase.left == 0
    requires ran.callers[call.p].phase.exits == world.checkExits + RanOf(world.outcomes)
    ensures Executed(s, call, world, DoSettle(ran, call.p, world.viewExit, world.isMerged))
  {
    var exits := ran.callers[call.p].phase.exits;
    var receipt := Settled(call.request, exits, world.viewExit, world.isMerged);
    assert receipt == Outcome(call.request, world);
    WriteExecutes(s, call, world, receipt.exits[|exits|..], ran);
  }

  lemma OwnTail(call: Call, world: World, seats: seq<Option<Seat>>, create: Step, prepare: Step)
    requires |seats| == |world.outcomes| && OwnStep(create, call.p) && OwnStep(prepare, call.p)
    ensures AllOwn([create, prepare] + Rest(call, world, seats), call.p)
  {
    var last := [Settle(call.p, world.viewExit, world.isMerged)];
    assert last[1..] == [];
    RestIsOwn(call.p, world.outcomes, seats, last);
    var all := [create, prepare] + Rest(call, world, seats);
    assert all[1..][1..] == Rest(call, world, seats) && all[1..][0] == prepare;
  }

  lemma SoloTaken(cap: Option<nat>, s: Sys, call: Call, world: World, seats: seq<Option<Seat>>)
    requires |seats| == |world.outcomes| && Free(s, call) && call.id in s.receipts
    ensures Executed(s, call, world, After(cap, s, CallSteps(call, world, seats)))
  {
    var p, rest := call.p, Rest(call, world, seats);
    var create, prepare := CreateReceipt(p), Prepare(p, world.permitted, world.checkExits, |world.outcomes|);
    AfterConcat(cap, s, WayIn(call), [Replay(p), create, prepare] + rest);
    Enters(cap, s, call);
    OwnTail(call, world, seats, create, prepare);
    assert [Replay(p), create, prepare] + rest == [Replay(p)] + ([create, prepare] + rest);
    TakenIsAnswered(cap, s, call, world, [create, prepare] + rest);
  }

  lemma OwnsThen(cap: Option<nat>, s: Sys, call: Call, rest: seq<Step>)
    requires call.id !in s.receipts
    ensures After(cap, Entered(s, call), [Replay(call.p)] + ([CreateReceipt(call.p)] + rest))
            == After(cap, Owner(s, call), rest)
  {
    var p := call.p;
    var unreplayed := At(s, call, Unreplayed).(locks := Locked(s, call));
    AfterCons(cap, Entered(s, call), Replay(p), [CreateReceipt(p)] + rest);
    FreeIsUnreplayed(s, call);
    AfterCons(cap, unreplayed, CreateReceipt(p), rest);
    FreeIsOwned(s, call);
  }

  lemma RunsThenSettles(cap: Option<nat>, owner: Sys, call: Call, world: World, seats: seq<Option<Seat>>)
    requires |seats| == |world.outcomes|
    ensures var prepare := Prepare(call.p, world.permitted, world.checkExits, |world.outcomes|);
            After(cap, owner, [prepare] + Rest(call, world, seats)) == Worked(cap, owner, call, world, seats)
  {
    var prepare := Prepare(call.p, world.permitted, world.checkExits, |world.outcomes|);
    AfterCons(cap, owner, prepare, Rest(call, world, seats));
    AfterLast(cap, Do(cap, owner, prepare), CommandSteps(call.p, world.outcomes, seats),
              Settle(call.p, world.viewExit, world.isMerged));
  }

  /** Where the steps of a call whose id is free lead. */
  lemma FreeSteps(cap: Option<nat>, s: Sys, call: Call, world: World, seats: seq<Option<Seat>>)
    requires |seats| == |world.outcomes| && Free(s, call) && call.id !in s.receipts
    ensures After(cap, s, CallSteps(call, world, seats)) == Worked(cap, Owner(s, call), call, world, seats)
  {
    var p, rest := call.p, Rest(call, world, seats);
    var prepare := Prepare(p, world.permitted, world.checkExits, |world.outcomes|);
    var tail := [Replay(p)] + ([CreateReceipt(p)] + ([prepare] + rest));
    assert [Replay(p), CreateReceipt(p), prepare] + rest == tail;
    AfterConcat(cap, s, WayIn(call), tail);
    Enters(cap, s, call);
    OwnsThen(cap, s, call, [prepare] + rest);
    RunsThenSettles(cap, Owner(s, call), call, world, seats);
  }

  lemma SoloFree(cap: Option<nat>, s: Sys, call: Call, world: World, seats: seq<Option<Seat>>)
    requires |seats| == |world.outcomes| && Free(s, call) && call.id !in s.receipts
    requires CapSeen(cap, s, call.request, world)
    ensures Executed(s, call, world, After(cap, s, CallSteps(call, world, seats)))
  {
    FreeSteps(cap, s, call, world, seats);
    OwnedIsRun(cap, s, call, world, seats);
  }

  /** Alone, a call is one `OperationService.Execute`, on whatever receipts earlier runs have left. */
  lemma SoloCallIsExecute(cap: Option<nat>, live: set<Seat>, steps: seq<Step>, call: Call, world: World,
                          seats: seq<Option<Seat>>)
    requires |seats| == |world.outcomes|
    requires Free(Run(cap, live, steps), call) && CapSeen(cap, Run(cap, live, steps), call.request, world)
    ensures Executed(Run(cap, live, steps), call, world, Run(cap, live, steps + CallSteps(call, world, seats)))
  {
    var s := Run(cap, live, steps);
    RunGoesOn(cap, live, steps, CallSteps(call, world, seats));
    if call.id in s.receipts {
      SoloTaken(cap, s, call, world, seats);
    } else {
      SoloFree(cap, s, call, world, seats);
    }
  }
}
