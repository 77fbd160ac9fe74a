/** Any number of emitters, interleaved: each looks its key up, takes the run's lock, folds and gates,
    writes and commits, and may crash anywhere. Every list of steps is a run; a step that is not enabled
    changes nothing. */
module Emitters {
  import opened Wrappers
  import opened Events
  import opened Legality
  import opened Reducer
  import opened Runs
  import opened Gateway

  type Pid = nat

  /** What an emit has returned: the row it accepted or found, by sequence number, or the refusal. */
  datatype Outcome = Took(seqNo: int) | Turned(code: Code) | Raised

  datatype Phase =
    | Begun                       // the transaction is open
    | Missed                      // no key, or the lookup found nothing
    | Locked                      // holds the run's lock
    | Uncommitted(decision: Decision)  // has written, still holds the lock
    | Violated                    // the unique index refused the insert; rolled back
    | Finished(outcome: Outcome)
    | Crashed

  datatype Emitter = Emitter(req: Request, phase: Phase)

  /** The committed log, the lock, and every emitter there has been. `refused`, `coalesced` and `posted`
      count committed refusals, those of them that bumped a record, and accepted emits that were
      themselves refusal records. */
  datatype Sys = Sys(log: seq<Event>, nextSeq: int, lock: Option<Pid>, emitters: map<Pid, Emitter>,
                     refused: nat, coalesced: nat, posted: nat)

  const INITIAL := Sys([], 1, None, map[], 0, 0, 0)

  datatype Step =
    | Begin(p: Pid, req: Request)
    | Lookup(p: Pid)
    | TakeLock(p: Pid)
    | FoldAndGate(p: Pid, clock: int, gap: nat)  // the sequence may skip numbers
    | Commit(p: Pid)
    | Reselect(p: Pid)
    | Crash(p: Pid)

  predicate InPhase(s: Sys, p: Pid, phase: Phase) { p in s.emitters && s.emitters[p].phase == phase }

  function To(s: Sys, p: Pid, phase: Phase): Sys
    requires p in s.emitters
  {
    s.(emitters := s.emitters[p := s.emitters[p].(phase := phase)])
  }

  function Unlock(s: Sys): Sys { s.(lock := None) }

  function Found(s: Sys, req: Request): Option<nat> {
    if req.key.None? then None else FindByKey(s.log, req.actor.id, req.key.value)
  }

  /** The row an index of the log names. */
  function SeqAt(log: seq<Event>, i: nat): int
    requires i < |log|
  {
    SortKey(log[i])
  }

  function DoBegin(s: Sys, p: Pid, req: Request): Sys {
    if p in s.emitters then s else s.(emitters := s.emitters[p := Emitter(req, Begun)])
  }

  /** Where a lookup of the emitter's key leads. */
  function AfterLookup(s: Sys, p: Pid, otherwise: Phase): Phase
    requires p in s.emitters
  {
    var found := Found(s, s.emitters[p].req);
    if found.Some? then Finished(Took(SeqAt(s.log, found.value))) else otherwise
  }

  function DoLookup(s: Sys, p: Pid): Sys {
    if InPhase(s, p, Begun) then To(s, p, AfterLookup(s, p, Missed)) else s
  }

  function DoTakeLock(s: Sys, p: Pid): Sys {
    if InPhase(s, p, Missed) && s.lock.None? then To(s, p, Locked).(lock := Some(p)) else s
  }

  /** The insert under the lock either faults, or meets the unique index, or stands uncommitted. */
  function Settle(s: Sys, p: Pid, d: Decision, seqNo: int): Sys
    requires p in s.emitters
  {
    var s' := s.(nextSeq := seqNo + 1);
    if d.Faulting? then Unlock(To(s', p, Finished(Raised)))
    else if d.Accepting? && Found(s, s.emitters[p].req).Some? then Unlock(To(s', p, Violated))
    else To(s', p, Uncommitted(d))
  }

  function DoGate(c: Config, s: Sys, p: Pid, clock: int, gap: nat): Sys {
    if !InPhase(s, p, Locked) then s
    else Settle(s, p, Decide(c, s.log, s.emitters[p].req, clock, s.nextSeq + gap), s.nextSeq + gap)
  }

  function DoCommit(s: Sys, p: Pid): Sys {
    if !(p in s.emitters && s.emitters[p].phase.Uncommitted?) then s
    else
      var d := s.emitters[p].phase.decision;
      if d.Faulting? || !Writable(s.log, WriteOf(d)) then s
      else
        var outcome := if d.Accepting? then Took(SortKey(d.ev)) else Turned(d.code);
        Unlock(To(s, p, Finished(outcome))).(
          log := Written(s.log, WriteOf(d)),
          refused := s.refused + (if d.Refusing? then 1 else 0),
          coalesced := s.coalesced + (if WriteOf(d).Bump? then 1 else 0),
          posted := s.posted + (if d.Accepting? && d.ev.op.RecordRefusal? then 1 else 0))
  }

  function DoReselect(s: Sys, p: Pid): Sys {
    if InPhase(s, p, Violated) then To(s, p, AfterLookup(s, p, Finished(Raised))) else s
  }

  function DoCrash(s: Sys, p: Pid): Sys {
    if p !in s.emitters || s.emitters[p].phase.Finished? then s
    else if s.lock == Some(p) then Unlock(To(s, p, Crashed))
    else To(s, p, Crashed)
  }

  function Do(c: Config, s: Sys, step: Step): Sys {
    match step
    case Begin(p, req) => DoBegin(s, p, req)
    case Lookup(p) => DoLookup(s, p)
    case TakeLock(p) => DoTakeLock(s, p)
    case FoldAndGate(p, clock, gap) => DoGate(c, s, p, clock, gap)
    case Commit(p) => DoCommit(s, p)
    case Reselect(p) => DoReselect(s, p)
    case Crash(p) => DoCrash(s, p)
  }

  /** The state after a list of steps. */
  function Run(c: Config, steps: seq<Step>): Sys {
    if steps == [] then INITIAL else Do(c, Run(c, steps[..|steps| - 1]), steps[|steps| - 1])
  }

  lemma RunAppend(c: Config, steps: seq<Step>, step: Step)
    ensures Run(c, steps + [step]) == Do(c, Run(c, steps), step)
  {
    assert (steps + [step])[..|steps|] == steps;
  }

  // ---- the invariant -------------------------------------------------------------------------------------

  /** A refusal that appends, appends a record with a count of one. */
  predicate PlainRefusal(d: Decision) {
    d.Refusing? && d.write.Append? ==> d.write.ev.op.RecordRefusal? && d.write.ev.op.refusal.count == 1
  }

  /** What the lock holder has written was decided on the committed log as it still stands. */
  ghost predicate HolderInv(s: Sys, d: Decision, req: Request) {
    && !d.Faulting? && Writable(s.log, WriteOf(d))
    && Sound(Written(s.log, WriteOf(d)), s.nextSeq)
    && (d.Accepting? ==> d.ev.key == req.key && d.ev.actor == req.actor && d.ev.seqNo.Some?)
    && PlainRefusal(d)
  }

  /** The row an accepted emit returned is in the log, under its key. */
  ghost predicate TookInv(log: seq<Event>, seqNo: int, req: Request) {
    exists i | 0 <= i < |log| ::
      log[i].seqNo == Some(seqNo) && (req.key.Some? ==> HasKey(log[i], req.actor.id, req.key.value))
  }

  ghost predicate PhaseInv(s: Sys, p: Pid, e: Emitter) {
    && (s.lock == Some(p) <==> e.phase.Locked? || e.phase.Uncommitted?)
    && (e.phase.Uncommitted? ==> HolderInv(s, e.phase.decision, e.req))
    && (e.phase.Violated? ==> Found(s, e.req).Some?)
    && (e.phase.Finished? && e.phase.outcome.Took? ==> TookInv(s.log, e.phase.outcome.seqNo, e.req))
  }

  ghost predicate Inv(s: Sys) {
    && Sound(s.log, s.nextSeq)
    && (s.lock.Some? ==> s.lock.value in s.emitters)
    && forall p | p in s.emitters :: PhaseInv(s, p, s.emitters[p])
  }

  // ---- the log only grows ----------------------------------------------------------------------------------

  /** The later log keeps every row of the earlier one, but for the payloads of recorded refusals. */
  ghost predicate Extends(a: seq<Event>, b: seq<Event>) { |a| <= |b| && Alike(a, b[..|a|]) }

  lemma FoundStays(a: Sys, b: Sys, req: Request)
    requires Extends(a.log, b.log) && Found(a, req).Some?
    ensures Found(b, req).Some?
  {
    var i := Found(a, req).value;
    assert AlikeRow(a.log[i], b.log[..|a.log|][i]);
    assert HasKey(b.log[i], req.actor.id, req.key.value) && b.log[i] in b.log;
  }

  lemma TookStays(a: seq<Event>, b: seq<Event>, seqNo: int, req: Request)
    requires Extends(a, b) && TookInv(a, seqNo, req)
    ensures TookInv(b, seqNo, req)
  {
    var i :| 0 <= i < |a| && a[i].seqNo == Some(seqNo) && (req.key.Some? ==> HasKey(a[i], req.actor.id, req.key.value));
    assert AlikeRow(a[i], b[..|a|][i]);
    assert b[i].seqNo == Some(seqNo);
  }

  lemma WrittenExtends(log: seq<Event>, w: Write)
    requires Writable(log, w)
    ensures Extends(log, Written(log, w))
  {
  }

  // ---- preservation ------------------------------------------------------------------------------------------

  /** A step that leaves the log, the sequence and the lock alone, and moves `p` to a phase without claims. */
  lemma QuietStep(s: Sys, p: Pid, phase: Phase)
    requires Inv(s) && p in s.emitters && PhaseInv(s, p, s.emitters[p].(phase := phase))
    ensures Inv(To(s, p, phase))
  {
    var s' := To(s, p, phase);
    forall q | q in s'.emitters
      ensures PhaseInv(s', q, s'.emitters[q])
    {
      if q != p { assert s'.emitters[q] == s.emitters[q]; }
      assert PhaseInv(s, q, s'.emitters[q]);
    }
  }

  /** The lock holder gives up the lock without writing. */
  lemma ReleaseStep(s: Sys, p: Pid, phase: Phase, nextSeq: int)
    requires Inv(s) && s.lock == Some(p) && nextSeq >= s.nextSeq
    requires phase in {Violated, Finished(Raised), Crashed}
    requires phase.Violated? ==> Found(s, s.emitters[p].req).Some?
    ensures Inv(Unlock(To(s.(nextSeq := nextSeq), p, phase)))
  {
    var s' := Unlock(To(s.(nextSeq := nextSeq), p, phase));
    forall q | q in s'.emitters
      ensures PhaseInv(s', q, s'.emitters[q])
    {
      assert PhaseInv(s, q, s.emitters[q]);
    }
  }

  lemma BeginStep(s: Sys, p: Pid, req: Request)
    requires Inv(s)
    ensures Inv(DoBegin(s, p, req))
  {
    var s' := DoBegin(s, p, req);
    forall q | q in s'.emitters
      ensures PhaseInv(s', q, s'.emitters[q])
    {
      if q in s.emitters { assert PhaseInv(s, q, s.emitters[q]); }
    }
  }

  lemma LookupStep(s: Sys, p: Pid)
    requires Inv(s)
    ensures Inv(DoLookup(s, p))
  {
    if InPhase(s, p, Begun) {
      assert PhaseInv(s, p, s.emitters[p]);
      assert forall i | 0 <= i < |s.log| :: s.log[i].seqNo.Some?;
      QuietStep(s, p, AfterLookup(s, p, Missed));
    }
  }

  /** The re-select after a violated index finds the row it lost to. */
  lemma ReselectStep(s: Sys, p: Pid)
    requires Inv(s)
    ensures Inv(DoReselect(s, p))
    ensures InPhase(s, p, Violated) ==> DoReselect(s, p).emitters[p].phase.outcome.Took?
  {
    if InPhase(s, p, Violated) {
      assert PhaseInv(s, p, s.emitters[p]);
      assert forall i | 0 <= i < |s.log| :: s.log[i].seqNo.Some?;
      QuietStep(s, p, AfterLookup(s, p, Finished(Raised)));
    }
  }

  lemma TakeLockStep(s: Sys, p: Pid)
    requires Inv(s)
    ensures Inv(DoTakeLock(s, p))
  {
    var s' := DoTakeLock(s, p);
    forall q | q in s'.emitters
      ensures PhaseInv(s', q, s'.emitters[q])
    {
      assert PhaseInv(s, q, s.emitters[q]);
    }
  }

  /** The lock holder writes without committing. */
  lemma HoldStep(s: Sys, p: Pid, d: Decision, nextSeq: int)
    requires Inv(s) && InPhase(s, p, Locked) && nextSeq >= s.nextSeq
    requires HolderInv(s.(nextSeq := nextSeq), d, s.emitters[p].req)
    ensures Inv(To(s.(nextSeq := nextSeq), p, Uncommitted(d)))
  {
    var s' := To(s.(nextSeq := nextSeq), p, Uncommitted(d));
    assert PhaseInv(s, p, s.emitters[p]);
    forall q | q in s'.emitters
      ensures PhaseInv(s', q, s'.emitters[q])
    {
      assert PhaseInv(s, q, s.emitters[q]);
    }
  }

  lemma SettleStep(s: Sys, p: Pid, d: Decision, seqNo: int) returns (s': Sys)
    requires Inv(s) && InPhase(s, p, Locked) && seqNo >= s.nextSeq
    requires !d.Faulting? && (d.Accepting? ==> Found(s, s.emitters[p].req).None?) ==>
               HolderInv(s.(nextSeq := seqNo + 1), d, s.emitters[p].req)
    ensures s' == Settle(s, p, d, seqNo) && Inv(s')
  {
    s' := Settle(s, p, d, seqNo);
    if d.Faulting? {
      HolderReleases(s, p, Finished(Raised), seqNo + 1);
    } else if d.Accepting? && Found(s, s.emitters[p].req).Some? {
      HolderReleases(s, p, Violated, seqNo + 1);
    } else {
      HoldStep(s, p, d, seqNo + 1);
    }
  }

  lemma HolderReleases(s: Sys, p: Pid, phase: Phase, nextSeq: int)
    requires Inv(s) && InPhase(s, p, Locked) && nextSeq >= s.nextSeq
    requires phase == Finished(Raised) || (phase.Violated? && Found(s, s.emitters[p].req).Some?)
    ensures Inv(Unlock(To(s.(nextSeq := nextSeq), p, phase)))
  {
    assert PhaseInv(s, p, s.emitters[p]);
    ReleaseStep(s, p, phase, nextSeq);
  }

  lemma GateSettles(c: Config, s: Sys, p: Pid, clock: int, gap: nat, d: Decision)
    requires InPhase(s, p, Locked) && d == Decide(c, s.log, s.emitters[p].req, clock, s.nextSeq + gap)
    ensures DoGate(c, s, p, clock, gap) == Settle(s, p, d, s.nextSeq + gap)
  {
  }

  lemma GateStep(c: Config, s: Sys, p: Pid, clock: int, gap: nat) returns (s': Sys)
    requires Inv(s)
    ensures s' == DoGate(c, s, p, clock, gap) && Inv(s')
  {
    s' := s;
    if InPhase(s, p, Locked) {
      s' := LockedGateStep(c, s, p, clock, gap);
    }
  }

  lemma LockedGateStep(c: Config, s: Sys, p: Pid, clock: int, gap: nat) returns (s': Sys)
    requires Inv(s) && InPhase(s, p, Locked)
    ensures s' == DoGate(c, s, p, clock, gap) && Inv(s')
  {
    var d := LockedDecision(c, s, p, clock, gap);
    s' := SettleStep(s, p, d, s.nextSeq + gap);
  }

  /** What the lock holder decides, and that it may stand as what it has written. */
  lemma LockedDecision(c: Config, s: Sys, p: Pid, clock: int, gap: nat) returns (d: Decision)
    requires Sound(s.log, s.nextSeq) && InPhase(s, p, Locked)
    ensures DoGate(c, s, p, clock, gap) == Settle(s, p, d, s.nextSeq + gap)
    ensures var req := s.emitters[p].req;
            !d.Faulting? && (d.Accepting? ==> Found(s, req).None?) ==>
              HolderInv(s.(nextSeq := s.nextSeq + gap + 1), d, req)
  {
    d := HolderDecides(c, s, s.emitters[p].req, clock, s.nextSeq + gap);
    GateSettles(c, s, p, clock, gap, d);
  }

  lemma HolderDecides(c: Config, s: Sys, req: Request, clock: int, seqNo: int) returns (d: Decision)
    requires Sound(s.log, s.nextSeq) && seqNo >= s.nextSeq
    ensures d == Decide(c, s.log, req, clock, seqNo)
    ensures !d.Faulting? && (d.Accepting? ==> Found(s, req).None?) ==> HolderInv(s.(nextSeq := seqNo + 1), d, req)
  {
    d := Decide(c, s.log, req, clock, seqNo);
    if d.Accepting? && Found(s, req).None? {
      DecisionKeepsLog(c, s.log, req, clock, seqNo);
    } else if d.Refusing? {
      RefusalKeepsLog(c, s.log, req, d.code, clock, seqNo);
    }
  }

  lemma CommitStep(s: Sys, p: Pid)
    requires Inv(s)
    ensures Inv(DoCommit(s, p))
    ensures Extends(s.log, DoCommit(s, p).log)
  {
    if p in s.emitters && s.emitters[p].phase.Uncommitted? {
      var s' := DoCommit(s, p);
      assert PhaseInv(s, p, s.emitters[p]);
      CommitOwn(s, p);
      forall q | q in s'.emitters
        ensures PhaseInv(s', q, s'.emitters[q])
      {
        assert PhaseInv(s, q, s.emitters[q]);
        if q != p { OthersAfterCommit(s, s', q); }
      }
    } else {
      ExtendsSelf(s.log);
    }
  }

  /** The holder's own commit: the log takes its write, and its outcome is what it wrote. */
  lemma CommitOwn(s: Sys, p: Pid)
    requires p in s.emitters && s.emitters[p].phase.Uncommitted? && PhaseInv(s, p, s.emitters[p])
    ensures var s', d := DoCommit(s, p), s.emitters[p].phase.decision;
            && s'.log == Written(s.log, WriteOf(d)) && s'.lock.None? && s'.nextSeq == s.nextSeq
            && s'.emitters.Keys == s.emitters.Keys && PhaseInv(s', p, s'.emitters[p])
            && (forall q | q in s.emitters && q != p :: s'.emitters[q] == s.emitters[q])
            && Extends(s.log, s'.log)
  {
    var s', d := DoCommit(s, p), s.emitters[p].phase.decision;
    WrittenExtends(s.log, WriteOf(d));
    if d.Accepting? {
      assert s'.log[|s.log|] == d.ev;
      assert TookInv(s'.log, SortKey(d.ev), s.emitters[p].req);
    }
  }

  lemma OthersAfterCommit(s: Sys, s': Sys, q: Pid)
    requires Extends(s.log, s'.log) && q in s.emitters && PhaseInv(s, q, s.emitters[q])
    requires s.lock.Some? && s.lock != Some(q) && s'.lock.None?
    ensures PhaseInv(s', q, s.emitters[q])
  {
    var e := s.emitters[q];
    if e.phase.Violated? { FoundStays(s, s', e.req); }
    if e.phase.Finished? && e.phase.outcome.Took? { TookStays(s.log, s'.log, e.phase.outcome.seqNo, e.req); }
  }

  lemma CrashStep(s: Sys, p: Pid)
    requires Inv(s)
    ensures Inv(DoCrash(s, p))
  {
    if p in s.emitters && !s.emitters[p].phase.Finished? {
      assert PhaseInv(s, p, s.emitters[p]);
      if s.lock == Some(p) {
        assert s.(nextSeq := s.nextSeq) == s;
        ReleaseStep(s, p, Crashed, s.nextSeq);
      } else {
        QuietStep(s, p, Crashed);
      }
    }
  }

  predicate Writes(step: Step) { step.FoldAndGate? || step.Commit? }

  lemma QuietKeepsInv(c: Config, s: Sys, step: Step)
    requires Inv(s) && !Writes(step)
    ensures Inv(Do(c, s, step))
  {
    match step {
      case Begin(p, req) => BeginStep(s, p, req);
      case Lookup(p) => LookupStep(s, p);
      case TakeLock(p) => TakeLockStep(s, p);
      case Reselect(p) => ReselectStep(s, p);
      case Crash(p) => CrashStep(s, p);
    }
  }

  lemma StepKeepsInv(c: Config, s: Sys, step: Step)
    requires Inv(s)
    ensures Inv(Do(c, s, step))
  {
    if step.FoldAndGate? {
      var s' := GateStep(c, s, step.p, step.clock, step.gap);
    } else if step.Commit? {
      CommitStep(s, step.p);
    } else {
      QuietKeepsInv(c, s, step);
    }
  }

  /** Only a commit writes the log or moves a counter. */
  lemma OnlyCommitWrites(c: Config, s: Sys, step: Step)
    requires !step.Commit?
    ensures var s' := Do(c, s, step);
            s'.log == s.log && s'.refused == s.refused && s'.coalesced == s.coalesced && s'.posted == s.posted
  {
  }

  lemma StepExtendsLog(c: Config, s: Sys, step: Step)
    requires Inv(s)
    ensures Extends(s.log, Do(c, s, step).log)
  {
    if step.Commit? {
      CommitStep(s, step.p);
    } else {
      OnlyCommitWrites(c, s, step);
      ExtendsSelf(s.log);
    }
  }

  lemma ExtendsSelf(log: seq<Event>)
    ensures Extends(log, log)
  {
    assert log[..|log|] == log;
  }

  lemma {:induction false} RunKeepsInv(c: Config, steps: seq<Step>)
    ensures Inv(Run(c, steps))
  {
    if steps != [] {
      RunKeepsInv(c, steps[..|steps| - 1]);
      StepKeepsInv(c, Run(c, steps[..|steps| - 1]), steps[|steps| - 1]);
    }
  }

  // ---- what every run guarantees ---------------------------------------------------------------------------------

  /** In every reachable log, each event passed the gate against exactly the prefix before it, and no
      actor's idempotency key occurs twice. */
  lemma EveryRunGated(c: Config, steps: seq<Step>)
    ensures var log := Run(c, steps).log;
            && (forall i | 0 <= i < |log| :: Gate(Folded(log[..i]), log[i].actor, log[i].op, log[i].task).None?)
            && (forall i, j | 0 <= i < j < |log| && log[i].key.Some? ::
                  !(log[j].key == log[i].key && log[j].actor.id == log[i].actor.id))
            && (forall i, j | 0 <= i < j < |log| :: SortKey(log[i]) < SortKey(log[j]))
  {
    RunKeepsInv(c, steps);
    var log := Run(c, steps).log;
    forall i | 0 <= i < |log|
      ensures Gate(Folded(log[..i]), log[i].actor, log[i].op, log[i].task).None?
    {
      StepAccepted(log, i);
      GateBuiltPrefix(log, i);
      FoldedIsDerived(log[..i]);
    }
    forall i, j | 0 <= i < j < |log| && log[i].key.Some?
      ensures !(log[j].key == log[i].key && log[j].actor.id == log[i].actor.id)
    {
      assert !HasKey(log[j], log[i].actor.id, log[i].key.value);
    }
  }

  ghost predicate AcceptedAs(s: Sys, p: Pid, seqNo: int) { InPhase(s, p, Finished(Took(seqNo))) }

  /** Two emits of one actor under one key that were both accepted were given the same row. */
  lemma OneRowPerKey(c: Config, steps: seq<Step>, p: Pid, q: Pid, x: int, y: int)
    requires var s := Run(c, steps);
             && AcceptedAs(s, p, x) && AcceptedAs(s, q, y)
             && s.emitters[p].req.key.Some? && s.emitters[p].req.key == s.emitters[q].req.key
             && s.emitters[p].req.actor.id == s.emitters[q].req.actor.id
    ensures x == y
  {
    RunKeepsInv(c, steps);
    var s := Run(c, steps);
    assert PhaseInv(s, p, s.emitters[p]) && PhaseInv(s, q, s.emitters[q]);
    KeyNamesOneRow(s.log, s.emitters[p].req, s.emitters[q].req, x, y);
  }

  lemma KeyNamesOneRow(log: seq<Event>, a: Request, b: Request, x: int, y: int)
    requires UniqueKeys(log) && TookInv(log, x, a) && TookInv(log, y, b)
    requires a.key.Some? && a.key == b.key && a.actor.id == b.actor.id
    ensures x == y
  {
    var i :| 0 <= i < |log| && log[i].seqNo == Some(x) && HasKey(log[i], a.actor.id, a.key.value);
    var j :| 0 <= j < |log| && log[j].seqNo == Some(y) && HasKey(log[j], b.actor.id, b.key.value);
    assert !(i < j) && !(j < i);
  }

  /** A committed row stays where it is through every later step; only refusal payloads change. */
  lemma {:induction false} LogOnlyGrows(c: Config, steps: seq<Step>, more: seq<Step>)
    ensures Extends(Run(c, steps).log, Run(c, steps + more).log)
    decreases |more|
  {
    if more == [] {
      assert steps + more == steps;
    } else {
      var init, last := more[..|more| - 1], more[|more| - 1];
      assert (steps + more)[..|steps + more| - 1] == steps + init;
      LogOnlyGrows(c, steps, init);
      RunKeepsInv(c, steps + init);
      StepExtendsLog(c, Run(c, steps + init), last);
      ExtendsTransitive(Run(c, steps).log, Run(c, steps + init).log, Run(c, steps + more).log);
    }
  }

  lemma ExtendsTransitive(a: seq<Event>, b: seq<Event>, d: seq<Event>)
    requires Extends(a, b) && Extends(b, d)
    ensures Extends(a, d)
  {
    forall i | 0 <= i < |a|
      ensures AlikeRow(a[i], d[..|a|][i])
    {
      assert AlikeRow(a[i], b[..|a|][i]) && AlikeRow(b[i], d[..|b|][i]);
    }
  }
}
