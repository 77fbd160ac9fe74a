/** Concurrent operation requests: per-task locks, one launch lock, a receipt created exclusively, commands,
    crashes and workers that come and go. Every list of steps is a run; a step that is not enabled changes
    nothing. */
module Concurrency {
  import opened Wrappers
  import opened Operations
  import opened Collections

  type Pid = nat
  type Id = string
  type Seat = string

  datatype LockName = TaskLock(run: string, task: string) | LaunchLock

  datatype Phase =
    | Arrived
    | HoldsTask                          // the task's lock
    | HoldsAll                           // and, for a launch, the launch lock
    | Unreplayed                         // no receipt was there
    | Owning                             // has created the receipt
    | Going(left: nat, exits: seq<Exit>, seated: bool)  // commands still to run, exits so far, a worker seated
    | Answered(reply: Reply)
    | Dead

  datatype Caller = Caller(id: Id, request: Request, task: LockName, phase: Phase)

  /** One command that was run: who ran it, for which id, and how it ended. */
  datatype Command = Command(runner: Pid, id: Id, exit: Exit)

  /** The receipts directory, the locks, every caller there has been and the live workers; and, as
      history, who created each receipt and every command run so far. */
  datatype Sys = Sys(receipts: map<Id, Receipt>, locks: map<LockName, Pid>, callers: map<Pid, Caller>,
                     live: set<Seat>, creators: map<Id, Pid>, ran: seq<Command>)

  datatype Step =
    | Arrive(p: Pid, id: Id, request: Request, run: string, task: string)
    | LockTask(p: Pid)
    | LockLaunch(p: Pid)
    | Replay(p: Pid)
    | CreateReceipt(p: Pid)
    | Prepare(p: Pid, permitted: bool, checkExits: seq<Exit>, commands: nat)
    | RunCommand(p: Pid, exit: Exit, seat: Option<Seat>)
    | Settle(p: Pid, viewExit: Exit, isMerged: bool)
    | Die(p: Pid)
    | WorkerExits(gone: Seat)

  function Start(live: set<Seat>): Sys { Sys(map[], map[], map[], live, map[], []) }

  predicate In(s: Sys, p: Pid, phase: Phase) { p in s.callers && s.callers[p].phase == phase }

  predicate IsGoing(s: Sys, p: Pid) { p in s.callers && s.callers[p].phase.Going? }

  function To(s: Sys, p: Pid, phase: Phase): Sys
    requires p in s.callers
  {
    s.(callers := s.callers[p := s.callers[p].(phase := phase)])
  }

  /** All the caller's locks fall when it answers or dies. */
  function Released(s: Sys, p: Pid): Sys {
    s.(locks := map l | l in s.locks && s.locks[l] != p :: s.locks[l])
  }

  function Reply(s: Sys, p: Pid): Reply
    requires p in s.callers && s.callers[p].id in s.receipts
  {
    var previous := s.receipts[s.callers[p].id];
    if previous.request == s.callers[p].request then Replayed(previous) else ReusedId
  }

  function End(s: Sys, p: Pid, reply: Reply): Sys
    requires p in s.callers
  {
    Released(To(s, p, Answered(reply)), p)
  }

  function DoArrive(s: Sys, p: Pid, id: Id, request: Request, task: LockName): Sys {
    if p in s.callers then s else s.(callers := s.callers[p := Caller(id, request, task, Arrived)])
  }

  function Take(s: Sys, p: Pid, lock: LockName, next: Phase): Sys
    requires p in s.callers
  {
    if lock in s.locks then s else To(s, p, next).(locks := s.locks[lock := p])
  }

  function DoLockTask(s: Sys, p: Pid): Sys {
    if In(s, p, Arrived) then Take(s, p, s.callers[p].task, HoldsTask) else s
  }

  function DoLockLaunch(s: Sys, p: Pid): Sys {
    if !In(s, p, HoldsTask) then s
    else if s.callers[p].request.kind == Launch then Take(s, p, LaunchLock, HoldsAll)
    else To(s, p, HoldsAll)
  }

  function DoReplay(s: Sys, p: Pid): Sys {
    if !In(s, p, HoldsAll) then s
    else if s.callers[p].id in s.receipts then End(s, p, Reply(s, p))
    else To(s, p, Unreplayed)
  }

  /** The exclusive create; an id taken meanwhile, under another task's lock, is replayed. */
  function DoCreate(s: Sys, p: Pid): Sys {
    if !In(s, p, Unreplayed) then s
    else if s.callers[p].id in s.receipts then End(s, p, Reply(s, p))
    else
      var c := s.callers[p];
      To(s, p, Owning).(receipts := s.receipts[c.id := Receipt(c.request, Running, [], None, false)],
                        creators := s.creators[c.id := p])
  }

  function Write(s: Sys, p: Pid, receipt: Receipt): Sys
    requires p in s.callers
  {
    End(s.(receipts := s.receipts[s.callers[p].id := receipt]), p, Ran(receipt))
  }

  /** The history entries of some commands of one caller. */
  function Entries(p: Pid, id: Id, exits: seq<Exit>): seq<Command> {
    if exits == [] then []
    else Entries(p, id, exits[..|exits| - 1]) + [Command(p, id, exits[|exits| - 1])]
  }

  function Ran1(s: Sys, p: Pid, exits: seq<Exit>): Sys
    requires p in s.callers
  {
    s.(ran := s.ran + Entries(p, s.callers[p].id, exits))
  }

  /** The check, with the commands it runs itself. Of workers at most `cap` are allowed at once; none means
      no cap. */
  function DoPrepare(cap: Option<nat>, s: Sys, p: Pid, permitted: bool, checkExits: seq<Exit>, commands: nat): Sys {
    if !In(s, p, Owning) then s
    else
      var request := s.callers[p].request;
      if !permitted || (request.kind == Launch && cap.Some? && |s.live| >= cap.value)
      then Write(Ran1(s, p, checkExits), p, Receipt(request, Refusing, checkExits, None, false))
      else To(Ran1(s, p, checkExits), p, Going(commands, checkExits, false))
  }

  /** One command. A launch's commands seat at most one worker in all, while the caller holds its locks. */
  function DoRunCommand(s: Sys, p: Pid, exit: Exit, seat: Option<Seat>): Sys {
    if !IsGoing(s, p) || s.callers[p].phase.left == 0 then s
    else
      var phase := s.callers[p].phase;
      var seats := seat.Some? && s.callers[p].request.kind == Launch && !phase.seated;
      var left := if exit == Some(0) then phase.left - 1 else 0;
      To(Ran1(s, p, [exit]), p, Going(left, phase.exits + [exit], phase.seated || seats)).(
        live := if seats then s.live + {seat.value} else s.live)
  }

  /** The end of the command loop: a merge is looked at once more, and the final receipt is written. */
  function DoSettle(s: Sys, p: Pid, viewExit: Exit, isMerged: bool): Sys {
    if !IsGoing(s, p) || s.callers[p].phase.left > 0 then s
    else
      var exits := s.callers[p].phase.exits;
      var receipt := Settled(s.callers[p].request, exits, viewExit, isMerged);
      Write(Ran1(s, p, receipt.exits[|exits|..]), p, receipt)
  }

  function DoDie(s: Sys, p: Pid): Sys {
    if p in s.callers && !s.callers[p].phase.Answered? then Released(To(s, p, Dead), p) else s
  }

  function Do(cap: Option<nat>, s: Sys, step: Step): Sys {
    match step
    case Arrive(p, id, request, run, task) => DoArrive(s, p, id, request, TaskLock(run, task))
    case LockTask(p) => DoLockTask(s, p)
    case LockLaunch(p) => DoLockLaunch(s, p)
    case Replay(p) => DoReplay(s, p)
    case CreateReceipt(p) => DoCreate(s, p)
    case Prepare(p, permitted, checkExits, commands) => DoPrepare(cap, s, p, permitted, checkExits, commands)
    case RunCommand(p, exit, seat) => DoRunCommand(s, p, exit, seat)
    case Settle(p, viewExit, isMerged) => DoSettle(s, p, viewExit, isMerged)
    case Die(p) => DoDie(s, p)
    case WorkerExits(gone) => s.(live := s.live - {gone})
  }

  function Run(cap: Option<nat>, live: set<Seat>, steps: seq<Step>): Sys {
    if steps == [] then Start(live)
    else Do(cap, Run(cap, live, steps[..|steps| - 1]), steps[|steps| - 1])
  }

  // ---- the invariant ---------------------------------------------------------------------------------------

  predicate Working(c: Caller) { c.phase.Owning? || c.phase.Going? }

  /** The caller has not created a receipt, or was answered without creating one. */
  predicate Bystander(c: Caller) {
    c.phase.Arrived? || c.phase.HoldsTask? || c.phase.HoldsAll? || c.phase.Unreplayed?
    || (c.phase.Answered? && !c.phase.reply.Ran?)
  }

  predicate HoldsLaunch(c: Caller) {
    c.request.kind == Launch
    && (c.phase.HoldsAll? || c.phase.Unreplayed? || c.phase.Owning? || c.phase.Going?)
  }

  /** What a reply promises of the receipt it speaks of. */
  ghost predicate ReplyInv(s: Sys, c: Caller, reply: Reply) {
    c.id in s.receipts &&
    match reply
    case Ran(receipt) => s.receipts[c.id] == receipt && receipt.request == c.request && receipt.status != Running
    case Replayed(receipt) => s.receipts[c.id].request == receipt.request == c.request
    case ReusedId => s.receipts[c.id].request != c.request
  }

  ghost predicate CallerInv(s: Sys, p: Pid)
    requires p in s.callers
  {
    var c := s.callers[p];
    && c.task.TaskLock?
    && (Working(c) ==> c.id in s.receipts && s.receipts[c.id] == Receipt(c.request, Running, [], None, false))
    && (Working(c) || (c.phase.Answered? && c.phase.reply.Ran?) ==> c.id in s.creators && s.creators[c.id] == p)
    && (Bystander(c) ==> !(c.id in s.creators && s.creators[c.id] == p))
    && (c.phase.Answered? ==> ReplyInv(s, c, c.phase.reply))
    && (HoldsLaunch(c) ==> LaunchLock in s.locks && s.locks[LaunchLock] == p)
  }

  ghost predicate HistoryInv(s: Sys) {
    && s.creators.Keys == s.receipts.Keys
    && (forall id | id in s.creators :: s.creators[id] in s.callers && s.callers[s.creators[id]].id == id)
  }

  ghost predicate Inv(s: Sys) {
    HistoryInv(s) && forall p | p in s.callers :: CallerInv(s, p)
  }

  /** A receipt, once there, keeps its request, and is rewritten only by its creator and while running. */
  ghost predicate ReceiptsKept(s: Sys, s': Sys, p: Pid) {
    forall id | id in s.receipts ::
      && id in s'.receipts && s'.receipts[id].request == s.receipts[id].request
      && (s'.receipts[id] == s.receipts[id]
          || (s.receipts[id].status == Running && id in s.creators && s.creators[id] == p))
  }

  /** A step of `p` as every other caller sees it. */
  ghost predicate Elsewhere(s: Sys, s': Sys, p: Pid) {
    && p in s'.callers && s'.callers.Keys == s.callers.Keys + {p}
    && (p in s.callers ==> s'.callers[p].id == s.callers[p].id && s'.callers[p].request == s.callers[p].request)
    && (forall q | q in s.callers && q != p :: s'.callers[q] == s.callers[q])
    && (forall l | l in s.locks && s.locks[l] != p :: l in s'.locks && s'.locks[l] == s.locks[l])
    && ReceiptsKept(s, s', p)
    && (forall id | id in s.creators :: id in s'.creators && s'.creators[id] == s.creators[id])
    && (forall id | id in s'.creators && id !in s.creators :: s'.creators[id] == p && s'.callers[p].id == id)
    && s'.creators.Keys == s'.receipts.Keys
  }

  lemma OthersKeep(s: Sys, s': Sys, p: Pid)
    requires Inv(s) && Elsewhere(s, s', p) && CallerInv(s', p)
    ensures Inv(s')
  {
    forall q | q in s'.callers
      ensures CallerInv(s', q)
    {
      if q != p { assert CallerInv(s, q); }
    }
  }

  lemma ArriveKeeps(s: Sys, p: Pid, id: Id, request: Request, run: string, task: string)
    requires Inv(s) && DoArrive(s, p, id, request, TaskLock(run, task)) != s
    ensures var s' := DoArrive(s, p, id, request, TaskLock(run, task)); Elsewhere(s, s', p) && CallerInv(s', p)
  {
  }

  lemma LockTaskKeeps(s: Sys, p: Pid)
    requires Inv(s) && DoLockTask(s, p) != s
    ensures Elsewhere(s, DoLockTask(s, p), p) && CallerInv(DoLockTask(s, p), p)
  {
    assert p in s.callers && CallerInv(s, p);
  }

  lemma LockLaunchKeeps(s: Sys, p: Pid)
    requires Inv(s) && DoLockLaunch(s, p) != s
    ensures Elsewhere(s, DoLockLaunch(s, p), p) && CallerInv(DoLockLaunch(s, p), p)
  {
    assert p in s.callers && CallerInv(s, p);
  }

  /** A caller that finds its id taken is answered from the receipt. */
  lemma AnswerKeeps(s: Sys, p: Pid)
    requires Inv(s) && (In(s, p, HoldsAll) || In(s, p, Unreplayed)) && s.callers[p].id in s.receipts
    ensures Elsewhere(s, End(s, p, Reply(s, p)), p) && CallerInv(End(s, p, Reply(s, p)), p)
  {
    assert CallerInv(s, p);
  }

  lemma ReplayKeeps(s: Sys, p: Pid)
    requires Inv(s) && DoReplay(s, p) != s
    ensures Elsewhere(s, DoReplay(s, p), p) && CallerInv(DoReplay(s, p), p)
  {
    if s.callers[p].id in s.receipts {
      AnswerKeeps(s, p);
    } else {
      assert CallerInv(s, p);
    }
  }

  /** A caller that finds its id free takes it. */
  lemma OwnKeeps(s: Sys, p: Pid)
    requires Inv(s) && In(s, p, Unreplayed) && s.callers[p].id !in s.receipts
    ensures Elsewhere(s, DoCreate(s, p), p) && CallerInv(DoCreate(s, p), p)
  {
    OwnElsewhere(s, p);
    assert CallerInv(s, p);
    OwnSelf(s, p);
  }

  lemma OwnElsewhere(s: Sys, p: Pid)
    requires HistoryInv(s) && In(s, p, Unreplayed) && s.callers[p].id !in s.receipts
    ensures Elsewhere(s, DoCreate(s, p), p)
  {
    assert s.callers[p].id !in s.creators;
  }

  lemma OwnSelf(s: Sys, p: Pid)
    requires In(s, p, Unreplayed) && CallerInv(s, p) && s.callers[p].id !in s.receipts
    ensures CallerInv(DoCreate(s, p), p)
  {
  }

  lemma CreateKeeps(s: Sys, p: Pid)
    requires Inv(s) && DoCreate(s, p) != s
    ensures Elsewhere(s, DoCreate(s, p), p) && CallerInv(DoCreate(s, p), p)
  {
    if s.callers[p].id in s.receipts {
      AnswerKeeps(s, p);
    } else {
      OwnKeeps(s, p);
    }
  }

  lemma PrepareKeeps(cap: Option<nat>, s: Sys, p: Pid, permitted: bool, checkExits: seq<Exit>, commands: nat)
    requires Inv(s) && DoPrepare(cap, s, p, permitted, checkExits, commands) != s
    ensures var s' := DoPrepare(cap, s, p, permitted, checkExits, commands); Elsewhere(s, s', p) && CallerInv(s', p)
  {
    var s' := DoPrepare(cap, s, p, permitted, checkExits, commands);
    if s' == To(Ran1(s, p, checkExits), p, Going(commands, checkExits, false)) {
      GoKeeps(s, p, checkExits, Going(commands, checkExits, false));
    } else {
      WriteKeeps(s, p, checkExits, Receipt(s.callers[p].request, Refusing, checkExits, None, false));
    }
  }

  /** Running commands under the receipt the caller owns. */
  lemma GoKeeps(s: Sys, p: Pid, exits: seq<Exit>, phase: Phase)
    requires Inv(s) && p in s.callers && Working(s.callers[p]) && phase.Going?
    ensures var s' := To(Ran1(s, p, exits), p, phase); Elsewhere(s, s', p) && CallerInv(s', p)
  {
    assert CallerInv(s, p);
  }

  /** Writing the final receipt and answering with it. */
  lemma WriteKeeps(s: Sys, p: Pid, exits: seq<Exit>, receipt: Receipt)
    requires Inv(s) && p in s.callers && Working(s.callers[p])
    requires receipt.request == s.callers[p].request && receipt.status != Running
    ensures var s' := Write(Ran1(s, p, exits), p, receipt); Elsewhere(s, s', p) && CallerInv(s', p)
  {
    assert CallerInv(s, p);
  }

  lemma RunCommandKeeps(s: Sys, p: Pid, exit: Exit, seat: Option<Seat>)
    requires Inv(s) && DoRunCommand(s, p, exit, seat) != s
    ensures Elsewhere(s, DoRunCommand(s, p, exit, seat), p) && CallerInv(DoRunCommand(s, p, exit, seat), p)
  {
    var s' := DoRunCommand(s, p, exit, seat);
    GoKeeps(s, p, [exit], s'.callers[p].phase);
    assert s' == To(Ran1(s, p, [exit]), p, s'.callers[p].phase).(live := s'.live);
  }

  lemma SettleKeeps(s: Sys, p: Pid, viewExit: Exit, isMerged: bool)
    requires Inv(s) && DoSettle(s, p, viewExit, isMerged) != s
    ensures Elsewhere(s, DoSettle(s, p, viewExit, isMerged), p) && CallerInv(DoSettle(s, p, viewExit, isMerged), p)
  {
    var exits := s.callers[p].phase.exits;
    var receipt := Settled(s.callers[p].request, exits, viewExit, isMerged);
    WriteKeeps(s, p, receipt.exits[|exits|..], receipt);
  }

  lemma DieKeeps(s: Sys, p: Pid)
    requires Inv(s) && DoDie(s, p) != s
    ensures Elsewhere(s, DoDie(s, p), p) && CallerInv(DoDie(s, p), p)
  {
    assert p in s.callers && CallerInv(s, p);
  }

  lemma StepIsElsewhere(cap: Option<nat>, s: Sys, step: Step, p: Pid)
    requires Inv(s) && !step.WorkerExits? && step.p == p && Do(cap, s, step) != s
    ensures Elsewhere(s, Do(cap, s, step), p) && CallerInv(Do(cap, s, step), p)
  {
    match step {
      case Arrive(_, id, request, run, task) => ArriveKeeps(s, p, id, request, run, task);
      case LockTask(_) => LockTaskKeeps(s, p);
      case LockLaunch(_) => LockLaunchKeeps(s, p);
      case Replay(_) => ReplayKeeps(s, p);
      case CreateReceipt(_) => CreateKeeps(s, p);
      case Prepare(_, permitted, checkExits, commands) => PrepareKeeps(cap, s, p, permitted, checkExits, commands);
      case RunCommand(_, exit, seat) => RunCommandKeeps(s, p, exit, seat);
      case Settle(_, viewExit, isMerged) => SettleKeeps(s, p, viewExit, isMerged);
      case Die(_) => DieKeeps(s, p);
    }
  }

  lemma StepKeepsInv(cap: Option<nat>, s: Sys, step: Step)
    requires Inv(s)
    ensures Inv(Do(cap, s, step))
  {
    if step.WorkerExits? {
      forall q | q in s.callers
        ensures CallerInv(Do(cap, s, step), q)
      {
        assert CallerInv(s, q);
      }
    } else if Do(cap, s, step) != s {
      StepIsElsewhere(cap, s, step, step.p);
      OthersKeep(s, Do(cap, s, step), step.p);
    }
  }

  lemma {:induction false} RunKeepsInv(cap: Option<nat>, live: set<Seat>, steps: seq<Step>)
    ensures Inv(Run(cap, live, steps))
  {
    if steps != [] {
      RunKeepsInv(cap, live, steps[..|steps| - 1]);
      StepKeepsInv(cap, Run(cap, live, steps[..|steps| - 1]), steps[|steps| - 1]);
    }
  }

  // ---- what is recorded is what was run ------------------------------------------------------------------------

  /** The exits of the commands run for one id, in order. */
  function ExitsOf(ran: seq<Command>, id: Id): seq<Exit> {
    if ran == [] then []
    else
      var n := |ran| - 1;
      ExitsOf(ran[..n], id) + (if ran[n].id == id then [ran[n].exit] else [])
  }

  lemma ExitsOne(ran: seq<Command>, x: Command, id: Id)
    ensures ExitsOf(ran + [x], id) == ExitsOf(ran, id) + (if x.id == id then [x.exit] else [])
  {
    assert (ran + [x])[..|ran|] == ran;
  }

  lemma {:induction false} OwnExits(ran: seq<Command>, p: Pid, id: Id, exits: seq<Exit>)
    ensures ExitsOf(ran + Entries(p, id, exits), id) == ExitsOf(ran, id) + exits
  {
    if exits == [] {
      assert ran + [] == ran;
    } else {
      var front, last := exits[..|exits| - 1], exits[|exits| - 1];
      OwnExits(ran, p, id, front);
      ExitsOne(ran + Entries(p, id, front), Command(p, id, last), id);
      EntriesLast(ran, p, id, exits);
      AppendAssoc(ExitsOf(ran, id), front, last);
      assert exits == front + [last];
    }
  }

  lemma {:induction false} OtherExits(ran: seq<Command>, p: Pid, id: Id, exits: seq<Exit>, other: Id)
    requires other != id
    ensures ExitsOf(ran + Entries(p, id, exits), other) == ExitsOf(ran, other)
  {
    if exits == [] {
      assert ran + [] == ran;
    } else {
      var n := |exits| - 1;
      OtherExits(ran, p, id, exits[..n], other);
      ExitsOne(ran + Entries(p, id, exits[..n]), Command(p, id, exits[n]), other);
      EntriesLast(ran, p, id, exits);
    }
  }

  lemma EntriesLast(ran: seq<Command>, p: Pid, id: Id, exits: seq<Exit>)
    requires exits != []
    ensures var n := |exits| - 1;
            ran + Entries(p, id, exits) == ran + Entries(p, id, exits[..n]) + [Command(p, id, exits[n])]
  {
  }

  lemma ExitsAppend(ran: seq<Command>, p: Pid, id: Id, exits: seq<Exit>, other: Id)
    ensures ExitsOf(ran + Entries(p, id, exits), other)
            == if other == id then ExitsOf(ran, other) + exits else ExitsOf(ran, other)
  {
    if other == id { OwnExits(ran, p, id, exits); } else { OtherExits(ran, p, id, exits, other); }
  }

  lemma {:induction false} NoneRan(ran: seq<Command>, id: Id)
    requires forall i | 0 <= i < |ran| :: ran[i].id != id
    ensures ExitsOf(ran, id) == []
  {
    if ran != [] {
      NoneRan(ran[..|ran| - 1], id);
    }
  }

  lemma {:induction false} EntriesAre(p: Pid, id: Id, exits: seq<Exit>)
    ensures forall i | 0 <= i < |Entries(p, id, exits)| ::
              Entries(p, id, exits)[i].runner == p && Entries(p, id, exits)[i].id == id
  {
    if exits != [] {
      EntriesAre(p, id, exits[..|exits| - 1]);
    }
  }

  /** Every command was run by the creator of its id's receipt. */
  ghost predicate RanByCreators(s: Sys) {
    forall i | 0 <= i < |s.ran| :: s.ran[i].id in s.creators && s.creators[s.ran[i].id] == s.ran[i].runner
  }

  /** What a caller at work carries is what it has run. */
  ghost predicate CallerRecord(s: Sys, p: Pid)
    requires p in s.callers
  {
    var c := s.callers[p];
    && (c.phase.Owning? ==> ExitsOf(s.ran, c.id) == [])
    && (c.phase.Going? ==> ExitsOf(s.ran, c.id) == c.phase.exits)
  }

  ghost predicate ReceiptRecord(s: Sys, id: Id) {
    id in s.receipts && s.receipts[id].status != Running ==> s.receipts[id].exits == ExitsOf(s.ran, id)
  }

  ghost predicate RecordInv(s: Sys) {
    && RanByCreators(s)
    && (forall id :: ReceiptRecord(s, id))
    && (forall p | p in s.callers :: CallerRecord(s, p))
  }

  /** A step that runs some commands of `p`, and nothing else. */
  ghost predicate RunsOnly(s: Sys, s': Sys, p: Pid, exits: seq<Exit>) {
    && p in s'.callers && s'.ran == s.ran + Entries(p, s'.callers[p].id, exits)
    && (exits != [] ==> p in s.callers && Working(s.callers[p]))
  }

  lemma RecordsOfOthers(s: Sys, s': Sys, p: Pid, exits: seq<Exit>, id: Id)
    requires Inv(s) && RecordInv(s) && Elsewhere(s, s', p) && RunsOnly(s, s', p, exits)
    requires s'.callers[p].id != id
    ensures ExitsOf(s'.ran, id) == ExitsOf(s.ran, id) && ReceiptRecord(s', id)
  {
    ExitsAppend(s.ran, p, s'.callers[p].id, exits, id);
    assert ReceiptRecord(s, id);
  }

  lemma RanByCreatorsStep(s: Sys, s': Sys, p: Pid, exits: seq<Exit>)
    requires Inv(s) && RanByCreators(s) && Elsewhere(s, s', p) && RunsOnly(s, s', p, exits)
    ensures RanByCreators(s')
  {
    EntriesAre(p, s'.callers[p].id, exits);
    if exits != [] {
      assert CallerInv(s, p);
    }
  }

  /** Two callers at work, or one at work and one answered for a run, never share an id. */
  lemma OneWorkerPerId(s: Sys, p: Pid, q: Pid)
    requires Inv(s) && p in s.callers && q in s.callers && Working(s.callers[p]) && Working(s.callers[q])
    requires s.callers[p].id == s.callers[q].id
    ensures p == q
  {
    assert CallerInv(s, p) && CallerInv(s, q);
  }

  lemma RecordStep(s: Sys, s': Sys, p: Pid, exits: seq<Exit>)
    requires Inv(s) && RecordInv(s) && Elsewhere(s, s', p) && RunsOnly(s, s', p, exits)
    requires CallerRecord(s', p) && ReceiptRecord(s', s'.callers[p].id)
    ensures RecordInv(s')
  {
    RanByCreatorsStep(s, s', p, exits);
    forall id
      ensures ReceiptRecord(s', id)
    {
      if id != s'.callers[p].id { RecordsOfOthers(s, s', p, exits, id); }
    }
    forall q | q in s'.callers
      ensures CallerRecord(s', q)
    {
      if q != p { CallersElsewhere(s, s', p, exits, q); }
    }
  }

  lemma CallersElsewhere(s: Sys, s': Sys, p: Pid, exits: seq<Exit>, q: Pid)
    requires Inv(s) && RecordInv(s) && Elsewhere(s, s', p) && RunsOnly(s, s', p, exits)
    requires q in s'.callers && q != p
    ensures CallerRecord(s', q)
  {
    assert CallerRecord(s, q);
    if s.callers[q].id != s'.callers[p].id {
      RecordsOfOthers(s, s', p, exits, s.callers[q].id);
    } else if exits == [] {
      assert s'.ran == s.ran;
    } else if Working(s.callers[q]) {
      OneWorkerPerId(s, p, q);
    }
  }

  lemma QuietRecord(cap: Option<nat>, s: Sys, step: Step, p: Pid)
    requires Inv(s) && RecordInv(s) && !step.WorkerExits? && step.p == p && Do(cap, s, step) != s
    requires !step.Prepare? && !step.RunCommand? && !step.Settle? && !step.CreateReceipt?
    ensures var s' := Do(cap, s, step);
            RunsOnly(s, s', p, []) && CallerRecord(s', p) && s'.receipts == s.receipts
  {
    assert s.ran + [] == s.ran;
  }

  lemma CreateRecord(s: Sys, p: Pid)
    requires Inv(s) && RecordInv(s) && DoCreate(s, p) != s
    ensures var s' := DoCreate(s, p);
            RunsOnly(s, s', p, []) && CallerRecord(s', p) && ReceiptRecord(s', s'.callers[p].id)
  {
    assert s.ran + [] == s.ran;
    var id := s.callers[p].id;
    assert ReceiptRecord(s, id);
    if id !in s.receipts {
      assert id !in s.creators;
      NoneRan(s.ran, id);
    }
  }

  lemma PrepareRecord(cap: Option<nat>, s: Sys, p: Pid, permitted: bool, checkExits: seq<Exit>, commands: nat)
    requires Inv(s) && RecordInv(s) && DoPrepare(cap, s, p, permitted, checkExits, commands) != s
    ensures var s' := DoPrepare(cap, s, p, permitted, checkExits, commands);
            RunsOnly(s, s', p, checkExits) && CallerRecord(s', p) && ReceiptRecord(s', s'.callers[p].id)
  {
    assert CallerRecord(s, p) && CallerInv(s, p);
    ExitsAppend(s.ran, p, s.callers[p].id, checkExits, s.callers[p].id);
  }

  lemma RunCommandRecord(s: Sys, p: Pid, exit: Exit, seat: Option<Seat>)
    requires Inv(s) && RecordInv(s) && DoRunCommand(s, p, exit, seat) != s
    ensures var s' := DoRunCommand(s, p, exit, seat);
            RunsOnly(s, s', p, [exit]) && CallerRecord(s', p) && ReceiptRecord(s', s'.callers[p].id)
  {
    assert CallerRecord(s, p) && CallerInv(s, p);
    ExitsAppend(s.ran, p, s.callers[p].id, [exit], s.callers[p].id);
  }

  lemma SettleRecord(s: Sys, p: Pid, viewExit: Exit, isMerged: bool) returns (exits: seq<Exit>)
    requires Inv(s) && RecordInv(s) && DoSettle(s, p, viewExit, isMerged) != s
    ensures var s' := DoSettle(s, p, viewExit, isMerged);
            RunsOnly(s, s', p, exits) && CallerRecord(s', p) && ReceiptRecord(s', s'.callers[p].id)
  {
    assert CallerRecord(s, p) && CallerInv(s, p);
    var before := s.callers[p].phase.exits;
    var receipt := Settled(s.callers[p].request, before, viewExit, isMerged);
    exits := receipt.exits[|before|..];
    ExitsAppend(s.ran, p, s.callers[p].id, exits, s.callers[p].id);
    assert before + exits == receipt.exits;
  }

  lemma StepRecord(cap: Option<nat>, s: Sys, step: Step, p: Pid) returns (exits: seq<Exit>)
    requires Inv(s) && RecordInv(s) && !step.WorkerExits? && step.p == p && Do(cap, s, step) != s
    ensures var s' := Do(cap, s, step);
            RunsOnly(s, s', p, exits) && CallerRecord(s', p) && ReceiptRecord(s', s'.callers[p].id)
  {
    match step {
      case CreateReceipt(_) => exits := []; CreateRecord(s, p);
      case Prepare(_, permitted, checkExits, commands) =>
        exits := checkExits;
        PrepareRecord(cap, s, p, permitted, checkExits, commands);
      case RunCommand(_, exit, seat) => exits := [exit]; RunCommandRecord(s, p, exit, seat);
      case Settle(_, viewExit, isMerged) => exits := SettleRecord(s, p, viewExit, isMerged);
      case _ =>
        exits := [];
        QuietRecord(cap, s, step, p);
        SameRecord(s, Do(cap, s, step), p);
    }
  }

  lemma SameRecord(s: Sys, s': Sys, p: Pid)
    requires RecordInv(s) && RunsOnly(s, s', p, []) && s'.receipts == s.receipts
    ensures ReceiptRecord(s', s'.callers[p].id)
  {
    assert s'.ran == s.ran + [] == s.ran;
    assert ReceiptRecord(s, s'.callers[p].id);
  }

  lemma ExitKeepsRecords(s: Sys, live: set<Seat>)
    requires RecordInv(s)
    ensures RecordInv(s.(live := live))
  {
    var s' := s.(live := live);
    forall id
      ensures ReceiptRecord(s', id)
    {
      assert ReceiptRecord(s, id);
    }
    forall p | p in s'.callers
      ensures CallerRecord(s', p)
    {
      assert CallerRecord(s, p);
    }
  }

  lemma StepKeepsRecords(cap: Option<nat>, s: Sys, step: Step)
    requires Inv(s) && RecordInv(s)
    ensures RecordInv(Do(cap, s, step))
  {
    if step.WorkerExits? {
      ExitKeepsRecords(s, s.live - {step.gone});
    } else if Do(cap, s, step) != s {
      StepIsElsewhere(cap, s, step, step.p);
      var exits := StepRecord(cap, s, step, step.p);
      RecordStep(s, Do(cap, s, step), step.p, exits);
    }
  }

  lemma {:induction false} RunKeepsRecords(cap: Option<nat>, live: set<Seat>, steps: seq<Step>)
    ensures RecordInv(Run(cap, live, steps))
  {
    if steps != [] {
      var init := steps[..|steps| - 1];
      RunKeepsInv(cap, live, init);
      RunKeepsRecords(cap, live, init);
      StepKeepsRecords(cap, Run(cap, live, init), steps[|steps| - 1]);
    }
  }

  // ---- what every run guarantees -----------------------------------------------------------------------------

  /** All commands ever run for one operation id were run by one caller: the one that created its receipt,
      for that caller's own request. */
  lemma OperationsRunAtMostOnce(cap: Option<nat>, live: set<Seat>, steps: seq<Step>, i: nat, j: nat)
    requires var ran := Run(cap, live, steps).ran;
             i < |ran| && j < |ran| && ran[i].id == ran[j].id
    ensures var s := Run(cap, live, steps);
            && s.ran[i].runner == s.ran[j].runner && s.ran[i].id in s.receipts
            && s.ran[i].runner in s.callers && s.callers[s.ran[i].runner].id == s.ran[i].id
  {
    RunKeepsInv(cap, live, steps);
    RunKeepsRecords(cap, live, steps);
  }

  /** A settled receipt lists exactly the commands run for its id, every one and in order, whatever ran
      beside it and whoever crashed; an id without a receipt has had none run. */
  lemma ReceiptsRecordWhatRan(cap: Option<nat>, live: set<Seat>, steps: seq<Step>, id: Id)
    ensures var s := Run(cap, live, steps);
            && (id in s.receipts && s.receipts[id].status != Running ==> s.receipts[id].exits == ExitsOf(s.ran, id))
            && (id !in s.receipts ==> ExitsOf(s.ran, id) == [])
  {
    RunKeepsInv(cap, live, steps);
    RunKeepsRecords(cap, live, steps);
    var s := Run(cap, live, steps);
    assert ReceiptRecord(s, id);
    if id !in s.receipts { NoneRan(s.ran, id); }
  }

  /** A caller answered by a replay, or refused a reused id, ran nothing; the replay is of its own request,
      the refusal of another. A caller answered for a run got the receipt that stands. */
  lemma RepliesAreHonest(cap: Option<nat>, live: set<Seat>, steps: seq<Step>, p: Pid)
    requires var s := Run(cap, live, steps); p in s.callers && s.callers[p].phase.Answered?
    ensures var s := Run(cap, live, steps);
            var c := s.callers[p];
            && ReplyInv(s, c, c.phase.reply)
            && (!c.phase.reply.Ran? ==> forall i | 0 <= i < |s.ran| :: s.ran[i].runner != p)
  {
    RunKeepsInv(cap, live, steps);
    RunKeepsRecords(cap, live, steps);
    var s := Run(cap, live, steps);
    assert CallerInv(s, p);
    forall i | 0 <= i < |s.ran| && !s.callers[p].phase.reply.Ran?
      ensures s.ran[i].runner != p
    {
      assert s.ran[i].id in s.creators && s.callers[s.creators[s.ran[i].id]].id == s.ran[i].id;
    }
  }

  /** No step removes a receipt, changes its request, or touches it once its status is final. */
  lemma ReceiptStep(cap: Option<nat>, s: Sys, step: Step)
    requires Inv(s)
    ensures Frozen(s.receipts, Do(cap, s, step).receipts)
  {
    if !step.WorkerExits? && Do(cap, s, step) != s {
      StepIsElsewhere(cap, s, step, step.p);
      KeptIsFrozen(s, Do(cap, s, step), step.p);
    }
  }

  lemma KeptIsFrozen(s: Sys, s': Sys, p: Pid)
    requires ReceiptsKept(s, s', p)
    ensures Frozen(s.receipts, s'.receipts)
  {
  }

  ghost predicate Frozen(before: map<Id, Receipt>, after: map<Id, Receipt>) {
    forall id | id in before ::
      && id in after && after[id].request == before[id].request
      && (before[id].status != Running ==> after[id] == before[id])
  }

  lemma {:induction false} ReceiptsAreFinal(cap: Option<nat>, live: set<Seat>, steps: seq<Step>, more: seq<Step>)
    ensures Frozen(Run(cap, live, steps).receipts, Run(cap, live, steps + more).receipts)
    decreases |more|
  {
    if more == [] {
      assert steps + more == steps;
    } else {
      var init, last := more[..|more| - 1], more[|more| - 1];
      assert (steps + more)[..|steps + more| - 1] == steps + init;
      ReceiptsAreFinal(cap, live, steps, init);
      RunKeepsInv(cap, live, steps + init);
      ReceiptStep(cap, Run(cap, live, steps + init), last);
    }
  }

  // ---- the live-worker cap -------------------------------------------------------------------------------------

  /** The most workers there can be: the cap, or those there already were. */
  function Most(k: nat, live: set<Seat>): nat { if |live| > k then |live| else k }

  /** A launch that has counted and not yet seated finds room still there. */
  ghost predicate CapInv(k: nat, most: nat, s: Sys) {
    && |s.live| <= most && k <= most
    && forall p | IsGoing(s, p) && s.callers[p].request.kind == Launch && !s.callers[p].phase.seated :: |s.live| < k
  }

  /** The launch lock admits one launch between its count and its answer. */
  lemma OneLaunchAtATime(s: Sys, p: Pid, q: Pid)
    requires Inv(s) && IsGoing(s, p) && IsGoing(s, q)
    requires s.callers[p].request.kind == Launch && s.callers[q].request.kind == Launch
    ensures p == q
  {
    assert CallerInv(s, p) && CallerInv(s, q);
  }

  lemma SeatStep(k: nat, most: nat, s: Sys, p: Pid, exit: Exit, seat: Option<Seat>)
    requires Inv(s) && CapInv(k, most, s)
    ensures CapInv(k, most, DoRunCommand(s, p, exit, seat))
  {
    var s' := DoRunCommand(s, p, exit, seat);
    if s'.live != s.live {
      assert |s'.live| <= |s.live| + 1;
      forall q | IsGoing(s', q) && s'.callers[q].request.kind == Launch
        ensures s'.callers[q].phase.seated
      {
        if IsGoing(s, q) { OneLaunchAtATime(s, p, q); }
      }
    }
  }

  lemma CapStep(k: nat, most: nat, s: Sys, step: Step)
    requires Inv(s) && CapInv(k, most, s)
    ensures CapInv(k, most, Do(Some(k), s, step))
  {
    match step {
      case RunCommand(p, exit, seat) => SeatStep(k, most, s, p, exit, seat);
      case WorkerExits(gone) => SubsetSize(s.live - {gone}, s.live);
      case Prepare(p, permitted, checkExits, commands) => CountStep(k, most, s, p, permitted, checkExits, commands);
      case _ =>
        if step.Arrive? || step.LockTask? || step.LockLaunch? {
          WayInNoLaunch(Some(k), s, step);
        } else {
          WayOutNoLaunch(Some(k), s, step);
        }
    }
  }

  /** The count and the refusal under the launch lock. */
  lemma CountStep(k: nat, most: nat, s: Sys, p: Pid, permitted: bool, checkExits: seq<Exit>, commands: nat)
    requires CapInv(k, most, s)
    ensures CapInv(k, most, DoPrepare(Some(k), s, p, permitted, checkExits, commands))
  {
  }

  /** No worker is seated and no launch is let go. */
  ghost predicate NoLaunch(s: Sys, s': Sys) {
    && s'.live == s.live
    && forall p | IsGoing(s', p) :: IsGoing(s, p) && s'.callers[p] == s.callers[p]
  }

  lemma WayInNoLaunch(cap: Option<nat>, s: Sys, step: Step)
    requires step.Arrive? || step.LockTask? || step.LockLaunch?
    ensures NoLaunch(s, Do(cap, s, step))
  {
  }

  lemma WayOutNoLaunch(cap: Option<nat>, s: Sys, step: Step)
    requires step.Replay? || step.CreateReceipt? || step.Settle? || step.Die?
    ensures NoLaunch(s, Do(cap, s, step))
  {
  }

  /** With a cap, no interleaving of requests, crashes and exits ever has more live workers than the cap
      allows, or than there were to begin with. */
  lemma {:induction false} LiveWorkersNeverExceedCap(k: nat, live: set<Seat>, steps: seq<Step>)
    ensures CapInv(k, Most(k, live), Run(Some(k), live, steps))
    ensures |Run(Some(k), live, steps).live| <= Most(k, live)
  {
    if steps != [] {
      var init := steps[..|steps| - 1];
      LiveWorkersNeverExceedCap(k, live, init);
      RunKeepsInv(Some(k), live, init);
      CapStep(k, Most(k, live), Run(Some(k), live, init), steps[|steps| - 1]);
    }
  }
}
