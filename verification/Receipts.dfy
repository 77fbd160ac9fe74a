/** What the receipts of concurrent calls say: the truth about the commands that ran, and of those that did not. */
module Receipts {
  import opened Wrappers
  import opened Operations
  import opened Concurrency

  /** The status of a receipt is what its exits and its look at a merge come to. */
  predicate Tells(r: Receipt) {
    && (r.merged.Some? ==> r.request.kind == Merge)
    && (r.unconfirmed ==> r.status == Completed && r.exits != [] && r.exits[|r.exits| - 1] == Some(3))
    && match r.status
       case Running => r.exits == [] && r.merged.None?
       case Refusing => r.merged.None?
       case Completed => Clear(r.request, r.exits) && r.merged != Some(false)
       case Failing => !Clear(r.request, r.exits) || r.merged == Some(false)
  }

  ghost predicate AllTell(receipts: map<Id, Receipt>) { forall id | id in receipts :: Tells(receipts[id]) }

  lemma SettledTells(request: Request, ran: seq<Exit>, viewExit: Exit, isMerged: bool)
    ensures Tells(Settled(request, ran, viewExit, isMerged))
  {
    var world := World(true, ran, [], viewExit, isMerged);
    assert ran + RanOf(world.outcomes) == ran;
    OutcomeReports(request, world);
  }

  lemma StepTells(cap: Option<nat>, s: Sys, step: Step)
    requires AllTell(s.receipts)
    ensures AllTell(Do(cap, s, step).receipts)
  {
    if step.Settle? && IsGoing(s, step.p) {
      SettledTells(s.callers[step.p].request, s.callers[step.p].phase.exits, step.viewExit, step.isMerged);
    }
  }

  /** On every run, a receipt says done exactly where all it lists ended well and no merge was seen unmerged, and
      failed exactly where something did not, the running and the refused apart. */
  lemma {:induction false} ReceiptsTellTheTruth(cap: Option<nat>, live: set<Seat>, steps: seq<Step>)
    ensures AllTell(Run(cap, live, steps).receipts)
  {
    if steps != [] {
      ReceiptsTellTheTruth(cap, live, steps[..|steps| - 1]);
      StepTells(cap, Run(cap, live, steps[..|steps| - 1]), steps[|steps| - 1]);
    }
  }

  // ---- every listed command, or a failure ------------------------------------------------------------------------

  /** All `total` commands have run, or some of them, the last of which did not exit 0. */
  predicate RanOut(exits: seq<Exit>, total: int) {
    |exits| == total || (0 < |exits| <= total && exits[|exits| - 1] != Some(0))
  }

  /** The commands of a receipt, apart from the look at a merge that follows them. */
  function Commands(r: Receipt): seq<Exit> {
    if r.merged.Some? && r.exits != [] then r.exits[..|r.exits| - 1] else r.exits
  }

  /** A caller with `total` commands to account for is at them, has run out of them, or is dead. */
  predicate OnItsWay(phase: Phase, total: int) {
    match phase
    case Going(left, exits, _) => left + |exits| == total || (left == 0 && RanOut(exits, total))
    case Answered(Ran(r)) => RanOut(Commands(r), total)
    case Dead => true
    case _ => false
  }

  lemma SettledCommands(request: Request, ran: seq<Exit>, viewExit: Exit, isMerged: bool)
    ensures Commands(Settled(request, ran, viewExit, isMerged)) == ran
  {
  }

  /** A caller is moved by its own steps only, */
  lemma OthersLeaveIt(cap: Option<nat>, s: Sys, step: Step, p: Pid)
    requires p in s.callers && (step.WorkerExits? || step.p != p)
    ensures p in Do(cap, s, step).callers && Do(cap, s, step).callers[p] == s.callers[p]
  {
    if step.Prepare? || step.RunCommand? || step.Settle? {
      WorkLeavesIt(cap, s, step, p);
    }
  }

  lemma WorkLeavesIt(cap: Option<nat>, s: Sys, step: Step, p: Pid)
    requires p in s.callers && (step.Prepare? || step.RunCommand? || step.Settle?) && step.p != p
    ensures p in Do(cap, s, step).callers && Do(cap, s, step).callers[p] == s.callers[p]
  {
  }

  /** and not once it is through. */
  lemma NothingFollows(cap: Option<nat>, s: Sys, step: Step, p: Pid)
    requires p in s.callers && (s.callers[p].phase.Dead? || s.callers[p].phase.Answered?)
    requires !step.WorkerExits? && step.p == p
    ensures p in Do(cap, s, step).callers && (s.callers[p].phase.Answered? ==> Do(cap, s, step) == s)
    ensures s.callers[p].phase.Dead? ==> Do(cap, s, step).callers[p].phase.Dead?
  {
  }

  /** At its commands, it runs one, or settles, or dies. */
  lemma OwnStepOnItsWay(cap: Option<nat>, s: Sys, step: Step, p: Pid, total: int)
    requires IsGoing(s, p) && OnItsWay(s.callers[p].phase, total) && !step.WorkerExits? && step.p == p
    ensures p in Do(cap, s, step).callers && OnItsWay(Do(cap, s, step).callers[p].phase, total)
  {
    match step {
      case RunCommand(_, exit, seat) =>
      case Settle(_, viewExit, isMerged) =>
        SettledCommands(s.callers[p].request, s.callers[p].phase.exits, viewExit, isMerged);
      case Die(_) =>
      case _ =>
    }
  }

  lemma StepOnItsWay(cap: Option<nat>, s: Sys, step: Step, p: Pid, total: int)
    requires p in s.callers && OnItsWay(s.callers[p].phase, total)
    ensures p in Do(cap, s, step).callers && OnItsWay(Do(cap, s, step).callers[p].phase, total)
  {
    if step.WorkerExits? || step.p != p {
      OthersLeaveIt(cap, s, step, p);
    } else if !IsGoing(s, p) {
      NothingFollows(cap, s, step, p);
    } else {
      OwnStepOnItsWay(cap, s, step, p, total);
    }
  }

  lemma {:induction false} StaysOnItsWay(cap: Option<nat>, live: set<Seat>, steps: seq<Step>, more: seq<Step>,
                                         p: Pid, total: int)
    requires p in Run(cap, live, steps).callers && OnItsWay(Run(cap, live, steps).callers[p].phase, total)
    ensures var s := Run(cap, live, steps + more); p in s.callers && OnItsWay(s.callers[p].phase, total)
    decreases |more|
  {
    if more == [] {
      assert steps + more == steps;
    } else {
      var init, last := more[..|more| - 1], more[|more| - 1];
      assert (steps + more)[..|steps + more| - 1] == steps + init;
      StaysOnItsWay(cap, live, steps, init, p, total);
      StepOnItsWay(cap, Run(cap, live, steps + init), last, p, total);
    }
  }

  /** A caller whose check has listed its commands, and that is answered for having run, has run every one of
      them, or some of them and the last of those did not exit 0; a receipt that says done for a close, an abandon
      or a launch has run every one. */
  lemma EveryListedCommandRan(cap: Option<nat>, live: set<Seat>, steps: seq<Step>, more: seq<Step>, p: Pid,
                              listed: nat, checkExits: seq<Exit>, receipt: Receipt)
    requires In(Run(cap, live, steps), p, Going(listed, checkExits, false))
    requires In(Run(cap, live, steps + more), p, Answered(Ran(receipt)))
    ensures RanOut(Commands(receipt), |checkExits| + listed)
    ensures receipt.status == Completed && receipt.request.kind in {Close, Abandon, Launch} ==>
              |receipt.exits| == |checkExits| + listed && AllZero(receipt.exits)
  {
    StaysOnItsWay(cap, live, steps, more, p, |checkExits| + listed);
    RunKeepsInv(cap, live, steps + more);
    ReceiptsTellTheTruth(cap, live, steps + more);
    var s := Run(cap, live, steps + more);
    assert CallerInv(s, p) && Tells(receipt);
  }
}
