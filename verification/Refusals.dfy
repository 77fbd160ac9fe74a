/** Refusals are accounted for, records of one kind keep their distance in time, and what a retry gets. */
module Refusals {
  import opened Wrappers
  import opened Events
  import opened State
  import opened Legality
  import opened Reducer
  import opened Gateway
  import opened Emitters

  // ---- every refused emit is a record or a bump ----------------------------------------------------------

  function Records(log: seq<Event>): nat {
    if log == [] then 0 else Records(log[..|log| - 1]) + if log[|log| - 1].op.RecordRefusal? then 1 else 0
  }

  /** The sum of the records' `coalesced_count`. */
  function Counted(log: seq<Event>): int {
    if log == [] then 0
    else Counted(log[..|log| - 1])
         + if log[|log| - 1].op.RecordRefusal? then log[|log| - 1].op.refusal.count else 0
  }

  lemma TallyAppend(log: seq<Event>, ev: Event)
    ensures Records(log + [ev]) == Records(log) + if ev.op.RecordRefusal? then 1 else 0
    ensures Counted(log + [ev]) == Counted(log) + if ev.op.RecordRefusal? then ev.op.refusal.count else 0
  {
    assert (log + [ev])[..|log|] == log;
  }

  lemma {:induction false} TallyBump(log: seq<Event>, i: nat)
    requires i < |log| && log[i].op.RecordRefusal?
    ensures Records(log[i := Bumped(log[i])]) == Records(log)
    ensures Counted(log[i := Bumped(log[i])]) == Counted(log) + 1
    decreases |log|
  {
    var init, last := log[..|log| - 1], log[|log| - 1];
    if i < |log| - 1 {
      TallyBump(init, i);
      assert log[i := Bumped(log[i])] == init[i := Bumped(init[i])] + [last];
      TallyAppend(init[i := Bumped(init[i])], last);
    } else {
      assert log[i := Bumped(log[i])] == init + [Bumped(last)];
      TallyAppend(init, Bumped(last));
    }
  }

  ghost predicate TallyInv(s: Sys) {
    && s.refused + s.posted == Records(s.log) + s.coalesced
    && (s.posted == 0 ==> Counted(s.log) == s.refused)
  }

  lemma TallyCommit(s: Sys, p: Pid)
    requires TallyInv(s) && p in s.emitters && s.emitters[p].phase.Uncommitted?
    requires var d := s.emitters[p].phase.decision; !d.Faulting? && Writable(s.log, WriteOf(d)) && PlainRefusal(d)
    ensures TallyInv(DoCommit(s, p))
  {
    match WriteOf(s.emitters[p].phase.decision) {
      case Append(ev) => TallyAppend(s.log, ev);
      case Bump(i) => TallyBump(s.log, i);
    }
  }

  lemma TallyStep(c: Config, s: Sys, step: Step)
    requires Inv(s) && TallyInv(s)
    ensures TallyInv(Do(c, s, step))
  {
    if step.Commit? {
      if step.p in s.emitters && s.emitters[step.p].phase.Uncommitted? {
        assert PhaseInv(s, step.p, s.emitters[step.p]);
        TallyCommit(s, step.p);
      }
    } else {
      OnlyCommitWrites(c, s, step);
    }
  }

  /** On every run, refused emits are conserved: each one is a `gateway.rejected` record or a bump of one,
      apart from records a gateway-role caller posted itself; and while nobody has done that, the records'
      coalesced counts add up to exactly the refused emits. */
  lemma {:induction false} RefusalsAreConserved(c: Config, steps: seq<Step>)
    ensures TallyInv(Run(c, steps))
  {
    if steps != [] {
      var init := steps[..|steps| - 1];
      RefusalsAreConserved(c, init);
      RunKeepsInv(c, init);
      TallyStep(c, Run(c, init), steps[|steps| - 1]);
    }
  }

  // ---- records of one signature keep their distance --------------------------------------------------------

  function SignatureOf(r: Refusal): Signature { Signature(r.actorId, r.refusedType, r.refusedTask, r.code) }

  ghost predicate Spaced(c: Config, log: seq<Event>) {
    forall i, j | 0 <= i < j < |log| && log[i].op.RecordRefusal?
                  && HasSignature(log[j], SignatureOf(log[i].op.refusal)) :: log[j].ts - log[i].ts > c.window
  }

  /** The emit states no time ahead of the clock of a store that keeps its own, or the window is void. */
  predicate InTime(c: Config, req: Request, clock: int) {
    c.serverTime && c.window > 0 && req.logicalTs.Some? ==> req.logicalTs.value <= clock
  }

  /** What a caller has to respect at its turn: leave refusal records to the gateway, and be in time. */
  predicate Clean(c: Config, req: Request, clock: int) { !req.op.RecordRefusal? && InTime(c, req, clock) }

  predicate CleanStep(c: Config, s: Sys, step: Step) {
    step.FoldAndGate? && step.p in s.emitters ==> Clean(c, s.emitters[step.p].req, step.clock)
  }

  /** Every gating step of a run found its caller clean. */
  ghost predicate AllClean(c: Config, steps: seq<Step>) {
    steps == [] || (AllClean(c, steps[..|steps| - 1]) && CleanStep(c, Run(c, steps[..|steps| - 1]), steps[|steps| - 1]))
  }

  lemma SpacedWrite(c: Config, log: seq<Event>, req: Request, clock: int, seqNo: int)
    requires Spaced(c, log) && Clean(c, req, clock)
    ensures var d := Decide(c, log, req, clock, seqNo);
            !d.Faulting? ==> Writable(log, WriteOf(d)) && Spaced(c, Written(log, WriteOf(d)))
  {
    var d := Decide(c, log, req, clock, seqNo);
    if d.Accepting? {
      SpacedAppend(c, log, d.ev);
    } else if d.Refusing? {
      SpacedRefusal(c, log, req, d.code, clock, seqNo);
    }
  }

  lemma SpacedAppend(c: Config, log: seq<Event>, ev: Event)
    requires Spaced(c, log)
    requires ev.op.RecordRefusal? ==>
               forall e | e in log && HasSignature(e, SignatureOf(ev.op.refusal)) :: ev.ts - e.ts > c.window
    ensures Spaced(c, log + [ev])
  {
    var longer := log + [ev];
    forall i, j | 0 <= i < j < |longer| && longer[i].op.RecordRefusal?
                  && HasSignature(longer[j], SignatureOf(longer[i].op.refusal))
      ensures longer[j].ts - longer[i].ts > c.window
    {
      assert longer[i] == log[i] && log[i] in log;
      if j == |log| {
        assert HasSignature(log[i], SignatureOf(ev.op.refusal));
      } else {
        assert longer[j] == log[j];
      }
    }
  }

  lemma SpacedBump(c: Config, log: seq<Event>, i: nat)
    requires Spaced(c, log) && Writable(log, Bump(i))
    ensures Spaced(c, Written(log, Bump(i)))
  {
    var bumped := Written(log, Bump(i));
    forall k, j | 0 <= k < j < |bumped| && bumped[k].op.RecordRefusal?
                  && HasSignature(bumped[j], SignatureOf(bumped[k].op.refusal))
      ensures bumped[j].ts - bumped[k].ts > c.window
    {
      assert HasSignature(log[j], SignatureOf(log[k].op.refusal));
    }
  }

  lemma SpacedRefusal(c: Config, log: seq<Event>, req: Request, code: Code, clock: int, seqNo: int)
    requires Spaced(c, log) && InTime(c, req, clock)
    ensures var w := RefusalWrite(c, log, req, code, clock, seqNo);
            Writable(log, w) && Spaced(c, Written(log, w))
  {
    match RefusalWrite(c, log, req, code, clock, seqNo) {
      case Append(ev) =>
        if c.serverTime { LatestIsLatest(log); }
        SpacedAppend(c, log, ev);
      case Bump(i) => SpacedBump(c, log, i);
    }
  }

  ghost predicate SpacedInv(c: Config, s: Sys) {
    && Spaced(c, s.log)
    && forall p | p in s.emitters && s.emitters[p].phase.Uncommitted? ::
         Writable(s.log, WriteOf'(s.emitters[p].phase.decision))
         && Spaced(c, Written(s.log, WriteOf'(s.emitters[p].phase.decision)))
  }

  function WriteOf'(d: Decision): Write { if d.Faulting? then Bump(0) else WriteOf(d) }

  lemma SpacedStep(c: Config, s: Sys, step: Step)
    requires Inv(s) && SpacedInv(c, s) && CleanStep(c, s, step)
    ensures SpacedInv(c, Do(c, s, step))
  {
    var s' := Do(c, s, step);
    if step.Commit? {
      SpacedCommit(c, s, step.p);
    } else {
      OnlyCommitWrites(c, s, step);
      forall p | p in s'.emitters && s'.emitters[p].phase.Uncommitted?
        ensures Writable(s'.log, WriteOf'(s'.emitters[p].phase.decision))
        ensures Spaced(c, Written(s'.log, WriteOf'(s'.emitters[p].phase.decision)))
      {
        if p in s.emitters && s'.emitters[p] == s.emitters[p] {
        } else {
          SpacedGate(c, s, step, p);
        }
      }
    }
  }

  lemma OnlyGateWrites(c: Config, s: Sys, step: Step, p: Pid)
    requires var s' := Do(c, s, step);
             p in s'.emitters && s'.emitters[p].phase.Uncommitted?
             && !(p in s.emitters && s'.emitters[p] == s.emitters[p])
    ensures step.FoldAndGate? && step.p == p && InPhase(s, p, Locked)
    ensures Do(c, s, step).emitters[p].phase.decision ==
            Decide(c, s.log, s.emitters[p].req, step.clock, s.nextSeq + step.gap)
  {
  }

  lemma SpacedGate(c: Config, s: Sys, step: Step, p: Pid)
    requires Spaced(c, s.log) && CleanStep(c, s, step) && !step.Commit?
    requires var s' := Do(c, s, step);
             p in s'.emitters && s'.emitters[p].phase.Uncommitted?
             && !(p in s.emitters && s'.emitters[p] == s.emitters[p])
    ensures var d := Do(c, s, step).emitters[p].phase.decision;
            Writable(s.log, WriteOf'(d)) && Spaced(c, Written(s.log, WriteOf'(d)))
  {
    OnlyGateWrites(c, s, step, p);
    SpacedWrite(c, s.log, s.emitters[p].req, step.clock, s.nextSeq + step.gap);
  }

  lemma SpacedCommit(c: Config, s: Sys, p: Pid)
    requires Inv(s) && SpacedInv(c, s)
    ensures Spaced(c, DoCommit(s, p).log)
    ensures forall q | q in DoCommit(s, p).emitters && DoCommit(s, p).emitters[q].phase.Uncommitted? ::
              DoCommit(s, p) == s
  {
    if p in s.emitters && s.emitters[p].phase.Uncommitted? {
      assert PhaseInv(s, p, s.emitters[p]);
      forall q | q in s.emitters && q != p
        ensures !s.emitters[q].phase.Uncommitted?
      {
        assert PhaseInv(s, q, s.emitters[q]);
      }
    } else {
      assert DoCommit(s, p) == s;
    }
  }

  /** On every run of clean callers, two records of one signature lie more than the window apart. */
  lemma {:induction false} RecordsKeepTheirDistance(c: Config, steps: seq<Step>)
    requires AllClean(c, steps)
    ensures Spaced(c, Run(c, steps).log)
    ensures SpacedInv(c, Run(c, steps))
  {
    if steps != [] {
      var init := steps[..|steps| - 1];
      RecordsKeepTheirDistance(c, init);
      RunKeepsInv(c, init);
      SpacedStep(c, Run(c, init), steps[|steps| - 1]);
    }
  }

  /** The times of the records of one signature that fall in a span, in log order. */
  function TimesIn(log: seq<Event>, s: Signature, lo: int, hi: int): seq<int> {
    if log == [] then []
    else
      var last := log[|log| - 1];
      TimesIn(log[..|log| - 1], s, lo, hi) + if HasSignature(last, s) && lo <= last.ts <= hi then [last.ts] else []
  }

  /** Each time listed is that of a record of the signature within the span. */
  lemma {:induction false} TimesAreRecords(log: seq<Event>, s: Signature, lo: int, hi: int, t: int)
    requires t in TimesIn(log, s, lo, hi)
    ensures lo <= t <= hi && exists i | 0 <= i < |log| :: HasSignature(log[i], s) && log[i].ts == t
    decreases |log|
  {
    var init := log[..|log| - 1];
    if t in TimesIn(init, s, lo, hi) {
      TimesAreRecords(init, s, lo, hi, t);
      var i :| 0 <= i < |init| && HasSignature(init[i], s) && init[i].ts == t;
      assert log[i] == init[i];
    }
  }

  lemma {:induction false} TimesSpread(c: Config, log: seq<Event>, s: Signature, lo: int, hi: int)
    requires Spaced(c, log) && c.window >= 0
    ensures var times := TimesIn(log, s, lo, hi);
            times != [] ==> times[|times| - 1] - lo >= (|times| - 1) * (c.window + 1)
    decreases |log|
  {
    if log != [] {
      var init, last := log[..|log| - 1], log[|log| - 1];
      TimesSpread(c, init, s, lo, hi);
      var before := TimesIn(init, s, lo, hi);
      if HasSignature(last, s) && lo <= last.ts <= hi {
        if before != [] {
          var t := before[|before| - 1];
          TimesAreRecords(init, s, lo, hi, t);
          var i :| 0 <= i < |init| && HasSignature(init[i], s) && init[i].ts == t;
          assert log[i] == init[i] && SignatureOf(log[i].op.refusal) == s;
          OneMore(|before|, c.window + 1);
        }
      } else {
        assert TimesIn(log, s, lo, hi) == before;
      }
    }
  }

  lemma OneMore(n: nat, w: int)
    ensures n * w == (n - 1) * w + w
  {
  }

  /** So any span of logical time holds at most one record of a signature per window and a bit. */
  lemma RecordsAreBounded(c: Config, steps: seq<Step>, s: Signature, lo: int, hi: int)
    requires AllClean(c, steps) && c.window >= 0 && lo <= hi
    ensures (|TimesIn(Run(c, steps).log, s, lo, hi)| - 1) * (c.window + 1) <= hi - lo
  {
    RecordsKeepTheirDistance(c, steps);
    SpacedIsBounded(c, Run(c, steps).log, s, lo, hi);
  }

  lemma SpacedIsBounded(c: Config, log: seq<Event>, s: Signature, lo: int, hi: int)
    requires Spaced(c, log) && c.window >= 0 && lo <= hi
    ensures (|TimesIn(log, s, lo, hi)| - 1) * (c.window + 1) <= hi - lo
  {
    var times := TimesIn(log, s, lo, hi);
    TimesSpread(c, log, s, lo, hi);
    if times != [] {
      TimesAreRecords(log, s, lo, hi, times[|times| - 1]);
    } else {
      OneMore(0, c.window + 1);
    }
  }

  // ---- what a retry gets ---------------------------------------------------------------------------------------

  /** A keyed emit whose lookup comes after its key was committed gets the committed row back, ungated. */
  lemma LateRetryGetsTheOriginal(c: Config, steps: seq<Step>, p: Pid, i: nat)
    requires var s := Run(c, steps);
             && InPhase(s, p, Begun) && s.emitters[p].req.key.Some? && i < |s.log|
             && HasKey(s.log[i], s.emitters[p].req.actor.id, s.emitters[p].req.key.value)
    ensures InPhase(Run(c, steps + [Lookup(p)]), p, Finished(Took(SortKey(Run(c, steps).log[i]))))
  {
    RunKeepsInv(c, steps);
    RunAppend(c, steps, Lookup(p));
    SameRow(Run(c, steps), p, i);
  }

  /** Whatever happens after it has begun, such a retry is never gated: it has looked nothing up yet, has crashed,
      or has been given the committed row. */
  lemma {:induction false} LateRetryIsNeverGated(c: Config, steps: seq<Step>, more: seq<Step>, p: Pid, i: nat)
    requires var s := Run(c, steps);
             && InPhase(s, p, Begun) && s.emitters[p].req.key.Some? && i < |s.log|
             && HasKey(s.log[i], s.emitters[p].req.actor.id, s.emitters[p].req.key.value)
    ensures var s, s' := Run(c, steps), Run(c, steps + more);
            InPhase(s', p, Begun) || InPhase(s', p, Crashed) || InPhase(s', p, Finished(Took(SortKey(s.log[i]))))
    decreases |more|
  {
    if more == [] {
      assert steps + more == steps;
    } else {
      var init, last := more[..|more| - 1], more[|more| - 1];
      assert steps + more == steps + init + [last];
      LateRetryIsNeverGated(c, steps, init, p, i);
      RunKeepsInv(c, steps + init);
      RunAppend(c, steps + init, last);
      OthersFinished(c, steps, init);
      LogOnlyGrows(c, steps, init);
      LateStep(c, Run(c, steps), Run(c, steps + init), last, p, i);
    }
  }

  /** It has not looked its key up, or has crashed, or was given the row numbered `seqNo`. */
  predicate Ungated(s: Sys, p: Pid, seqNo: int) {
    InPhase(s, p, Begun) || InPhase(s, p, Crashed) || InPhase(s, p, Finished(Took(seqNo)))
  }

  /** Out of its beginning an emitter goes by its lookup, or crashes. */
  lemma BegunThen(c: Config, s: Sys, step: Step, p: Pid, seqNo: int)
    requires Ungated(s, p, seqNo) && !(step.Lookup? && step.p == p)
    ensures Ungated(Do(c, s, step), p, seqNo)
  {
  }

  lemma LateStep(c: Config, first: Sys, s: Sys, step: Step, p: Pid, i: nat)
    requires Inv(s) && Extends(first.log, s.log) && i < |first.log|
    requires p in s.emitters && s.emitters[p].req.key.Some?
    requires HasKey(first.log[i], s.emitters[p].req.actor.id, s.emitters[p].req.key.value)
    requires Ungated(s, p, SortKey(first.log[i]))
    ensures Ungated(Do(c, s, step), p, SortKey(first.log[i]))
  {
    if step.Lookup? && step.p == p {
      assert AlikeRow(first.log[i], s.log[..|first.log|][i]);
      SameRow(s, p, i);
    } else {
      BegunThen(c, s, step, p, SortKey(first.log[i]));
    }
  }

  lemma SameRow(s: Sys, p: Pid, i: nat)
    requires Inv(s) && p in s.emitters && s.emitters[p].req.key.Some? && i < |s.log|
    requires HasKey(s.log[i], s.emitters[p].req.actor.id, s.emitters[p].req.key.value)
    ensures Found(s, s.emitters[p].req) == Some(i)
  {
    assert s.log[i] in s.log;
    var j := Found(s, s.emitters[p].req).value;
    assert !(i < j) && !(j < i);
  }

  /** What the gate makes of a repeated operation, given that row `i` of the log is its original. */
  function RetryOutcome(c: Config, log: seq<Event>, req: Request, i: nat): Outcome
    requires i < |log|
  {
    match Gate(Folded(log), req.actor, req.op, req.task)
    case Some(code) => Turned(code)
    case None => if c.serverTime && req.logicalTs.Some? then Raised else Took(SortKey(log[i]))
  }

  /** A retry that raced past its lookup is gated again, on a log that holds its original: it gets the
      original exactly when the gate would take the operation a second time; when the gate refuses it,
      it is refused; and a caller's own time on a server-time store raises. */
  lemma RacingRetryIsGatedAgain(c: Config, steps: seq<Step>, p: Pid, i: nat, clock: int, gap: nat)
    requires var s := Run(c, steps);
             && InPhase(s, p, Locked) && s.emitters[p].req.key.Some? && i < |s.log|
             && HasKey(s.log[i], s.emitters[p].req.actor.id, s.emitters[p].req.key.value)
    ensures var s := Run(c, steps);
            InPhase(Run(c, steps + [FoldAndGate(p, clock, gap), Commit(p), Reselect(p)]), p,
                    Finished(RetryOutcome(c, s.log, s.emitters[p].req, i)))
  {
    RunKeepsInv(c, steps);
    var after := GatedSteps(c, steps, p, clock, gap);
    RacingRetryStep(c, Run(c, steps), p, i, clock, gap);
  }

  lemma GatedSteps(c: Config, steps: seq<Step>, p: Pid, clock: int, gap: nat) returns (after: Sys)
    ensures after == Run(c, steps + [FoldAndGate(p, clock, gap), Commit(p), Reselect(p)])
    ensures after == DoReselect(DoCommit(DoGate(c, Run(c, steps), p, clock, gap), p), p)
  {
    ThreeSteps(c, steps, FoldAndGate(p, clock, gap), Commit(p), Reselect(p));
    after := Run(c, steps + [FoldAndGate(p, clock, gap), Commit(p), Reselect(p)]);
  }

  lemma RacingRetryStep(c: Config, s: Sys, p: Pid, i: nat, clock: int, gap: nat)
    requires Inv(s) && InPhase(s, p, Locked) && s.emitters[p].req.key.Some? && i < |s.log|
    requires HasKey(s.log[i], s.emitters[p].req.actor.id, s.emitters[p].req.key.value)
    ensures InPhase(DoReselect(DoCommit(DoGate(c, s, p, clock, gap), p), p), p,
                    Finished(RetryOutcome(c, s.log, s.emitters[p].req, i)))
  {
    var d := RetryDecision(c, s, p, i, clock, gap);
    AfterSettle(s, p, d, s.nextSeq + gap, i);
  }

  lemma RetryDecision(c: Config, s: Sys, p: Pid, i: nat, clock: int, gap: nat) returns (d: Decision)
    requires Inv(s) && InPhase(s, p, Locked) && s.emitters[p].req.key.Some? && i < |s.log|
    requires HasKey(s.log[i], s.emitters[p].req.actor.id, s.emitters[p].req.key.value)
    ensures Found(s, s.emitters[p].req) == Some(i)
    ensures DoGate(c, s, p, clock, gap) == Settle(s, p, d, s.nextSeq + gap)
    ensures OutcomeFor(s.log, d, i) == RetryOutcome(c, s.log, s.emitters[p].req, i)
    ensures d.Refusing? ==> Writable(s.log, d.write)
  {
    var req, seqNo := s.emitters[p].req, s.nextSeq + gap;
    SameRow(s, p, i);
    d := Decide(c, s.log, req, clock, seqNo);
    DecidedIsWritable(c, s.log, req, clock, seqNo, d);
    GateSettles(c, s, p, clock, gap, d);
    DecisionCases(c, s.log, req, clock, seqNo, i, d);
  }

  function OutcomeFor(log: seq<Event>, d: Decision, i: nat): Outcome
    requires i < |log|
  {
    match d
    case Accepting(_) => Took(SortKey(log[i]))
    case Refusing(code, _) => Turned(code)
    case Faulting => Raised
  }

  lemma DecisionCases(c: Config, log: seq<Event>, req: Request, clock: int, seqNo: int, i: nat, d: Decision)
    requires i < |log| && d == Decide(c, log, req, clock, seqNo)
    ensures OutcomeFor(log, d, i) == RetryOutcome(c, log, req, i)
  {
  }

  lemma ThreeSteps(c: Config, steps: seq<Step>, x: Step, y: Step, z: Step)
    ensures Run(c, steps + [x, y, z]) == Do(c, Do(c, Do(c, Run(c, steps), x), y), z)
  {
    TwoSteps(c, steps, x, y);
    RunAppend(c, steps + [x, y], z);
    assert steps + [x, y] + [z] == steps + [x, y, z];
  }

  lemma TwoSteps(c: Config, steps: seq<Step>, x: Step, y: Step)
    ensures Run(c, steps + [x, y]) == Do(c, Do(c, Run(c, steps), x), y)
  {
    RunAppend(c, steps, x);
    RunAppend(c, steps + [x], y);
    assert steps + [x] + [y] == steps + [x, y];
  }

  lemma AfterSettle(s: Sys, p: Pid, d: Decision, seqNo: int, i: nat)
    requires InPhase(s, p, Locked) && Found(s, s.emitters[p].req) == Some(i)
    requires d.Refusing? ==> Writable(s.log, d.write)
    ensures var after := DoReselect(DoCommit(Settle(s, p, d, seqNo), p), p);
            InPhase(after, p, Finished(OutcomeFor(s.log, d, i)))
  {
  }

  /** The race can be lost: two emitters register one worker under one key; the second looks the key up
      before the first commits, and is refused. */
  lemma RacingRegistrationIsRefused() returns (c: Config, steps: seq<Step>)
    ensures var s := Run(c, steps);
            && 0 in s.emitters && 1 in s.emitters && s.emitters[0].req == s.emitters[1].req
            && s.emitters[0].req.key.Some?
            && s.emitters[0].phase.Finished? && s.emitters[0].phase.outcome.Took?
            && s.emitters[1].phase == Finished(Turned(IllegalTransition))
  {
    c := Config(false, 5);
    var req := Request(Actor(Planner, "planner"), Register("w"), None, None, Some("k"));
    var ev := Event(Some(1), 1, 0, req.actor, req.op, None, req.key);
    steps := BothMiss(c, req);
    var first := [FoldAndGate(0, 0, 0), Commit(0), TakeLock(1)];
    ThreeSteps(c, steps, first[0], first[1], first[2]);
    FirstWins(c, Run(c, steps), ev);
    steps := steps + first;
    var second := [FoldAndGate(1, 0, 0), Commit(1), Reselect(1)];
    RacingRetryIsGatedAgain(c, steps, 1, 0, 0, 0);
    assert RetryOutcome(c, [ev], req, 0) == Turned(IllegalTransition) by { RegisteredFold(ev); }
    OthersFinished(c, steps, second);
    steps := steps + second;
  }

  /** Two emitters of one request, both past their lookup on an empty run, the first holding the lock. */
  function Raced(req: Request): Sys {
    Sys([], 1, Some(0), map[0 := Emitter(req, Locked), 1 := Emitter(req, Missed)], 0, 0, 0)
  }

  lemma BothMiss(c: Config, req: Request) returns (steps: seq<Step>)
    ensures Run(c, steps) == Raced(req)
  {
    steps := [Begin(0, req), Begin(1, req), Lookup(0), Lookup(1), TakeLock(0)];
    FiveSteps(c, [], steps[0], steps[1], steps[2], steps[3], steps[4]);
    assert [] + steps == steps;
    var begun := DoBegin(DoBegin(INITIAL, 0, req), 1, req);
    assert begun == Sys([], 1, None, map[0 := Emitter(req, Begun), 1 := Emitter(req, Begun)], 0, 0, 0);
    var missed := DoLookup(DoLookup(begun, 0), 1);
    assert missed == Sys([], 1, None, map[0 := Emitter(req, Missed), 1 := Emitter(req, Missed)], 0, 0, 0);
    assert DoTakeLock(missed, 0) == Raced(req);
  }

  lemma FirstWins(c: Config, s: Sys, ev: Event)
    requires !c.serverTime && ev.actor.role == Planner && ev.op.Register? && ev.key.Some?
    requires ev == Event(Some(1), 1, 0, ev.actor, ev.op, None, ev.key)
    requires s == Raced(Request(ev.actor, ev.op, None, None, ev.key))
    ensures var req := Request(ev.actor, ev.op, None, None, ev.key);
            DoTakeLock(DoCommit(DoGate(c, s, 0, 0, 0), 0), 1) ==
            Sys([ev], 2, Some(1), map[0 := Emitter(req, Finished(Took(1))), 1 := Emitter(req, Locked)], 0, 0, 0)
  {
    var req := Request(ev.actor, ev.op, None, None, ev.key);
    EmptyFold();
    assert Decide(c, [], req, 0, 1) == Accepting(ev);
    GateSettles(c, s, 0, 0, 0, Accepting(ev));
    var gated := Settle(s, 0, Accepting(ev), 1);
    assert gated == Sys([], 2, Some(0),
                        map[0 := Emitter(req, Uncommitted(Accepting(ev))), 1 := Emitter(req, Missed)], 0, 0, 0);
    var committed := DoCommit(gated, 0);
    assert committed == Sys([ev], 2, None,
                            map[0 := Emitter(req, Finished(Took(1))), 1 := Emitter(req, Missed)], 0, 0, 0);
  }

  lemma FiveSteps(c: Config, steps: seq<Step>, x0: Step, x1: Step, x2: Step, x3: Step, x4: Step)
    ensures Run(c, steps + [x0, x1, x2, x3, x4]) == Do(c, Do(c, Do(c, Do(c, Do(c, Run(c, steps), x0), x1), x2), x3), x4)
  {
    ThreeSteps(c, steps, x0, x1, x2);
    RunAppend(c, steps + [x0, x1, x2], x3);
    RunAppend(c, steps + [x0, x1, x2] + [x3], x4);
    assert steps + [x0, x1, x2] + [x3] + [x4] == steps + [x0, x1, x2, x3, x4];
  }

  lemma EmptyFold()
    ensures Folded([]) == EMPTY_BOARD
  {
  }

  lemma RegisteredFold(ev: Event)
    requires ev.op.Register?
    ensures ev.op.workerId in Folded([ev]).roster
  {
    assert SortBySeq([ev]) == [ev] by { SortOfSorted([ev]); }
    assert [ev][..0] == [];
  }

  /** What an emitter has returned, it has returned for good. */
  lemma {:induction false} OthersFinished(c: Config, steps: seq<Step>, more: seq<Step>)
    ensures var s, s' := Run(c, steps), Run(c, steps + more);
            forall p | p in s.emitters ::
              && p in s'.emitters && s'.emitters[p].req == s.emitters[p].req
              && (s.emitters[p].phase.Finished? ==> s'.emitters[p] == s.emitters[p])
    decreases |more|
  {
    if more == [] {
      assert steps + more == steps;
    } else {
      var init, last := more[..|more| - 1], more[|more| - 1];
      OthersFinished(c, steps, init);
      RunAppend(c, steps + init, last);
      assert steps + more == steps + init + [last];
      FinishedStays(c, Run(c, steps + init), last);
    }
  }

  lemma FinishedStays(c: Config, s: Sys, step: Step)
    ensures forall p | p in s.emitters ::
              && p in Do(c, s, step).emitters && Do(c, s, step).emitters[p].req == s.emitters[p].req
              && (s.emitters[p].phase.Finished? ==> Do(c, s, step).emitters[p] == s.emitters[p])
  {
  }

  /** The refusal written on this log leaves it spaced. */
  ghost predicate KeepsDistance(c: Config, log: seq<Event>, req: Request, code: Code, clock: int, seqNo: int) {
    var w := RefusalWrite(c, log, req, code, clock, seqNo);
    Writable(log, w) && Spaced(c, Written(log, w))
  }

  /** Being in time is exactly what it takes: for an emit that states a time ahead of its store's clock
      there is a spaced log on which its refusal record comes too close, the window being read at the stated
      time and the record stamped with the store's. */
  lemma DistanceKeptIffInTime(c: Config, req: Request, code: Code, clock: int, seqNo: int)
    ensures (forall log: seq<Event> :: Spaced(c, log) ==> KeepsDistance(c, log, req, code, clock, seqNo))
            <==> InTime(c, req, clock)
  {
    if InTime(c, req, clock) {
      forall log: seq<Event> | Spaced(c, log)
        ensures KeepsDistance(c, log, req, code, clock, seqNo)
      {
        SpacedRefusal(c, log, req, code, clock, seqNo);
      }
    } else {
      var log := [FirstRecord(req, code, Earlier(c, req, clock))];
      TooClose(c, req, code, clock, seqNo);
      assert Spaced(c, log) && !KeepsDistance(c, log, req, code, clock, seqNo);
    }
  }

  /** The time of a record just outside the window as the caller sees it, and not ahead of the clock. */
  function Earlier(c: Config, req: Request, clock: int): int
    requires req.logicalTs.Some?
  {
    var outside := req.logicalTs.value - c.window - 1;
    if outside < clock then outside else clock
  }

  /** The record a run's first refusal leaves, as number 1. */
  function FirstRecord(req: Request, code: Code, ts: int): Event {
    Event(Some(1), 1, ts, Actor(GatewayRole, "gateway"),
          RecordRefusal(Refusal(TypeOf(req.op), req.task, code, req.actor.id, 1)), req.task, None)
  }

  lemma TooClose(c: Config, req: Request, code: Code, clock: int, seqNo: int)
    requires !InTime(c, req, clock)
    ensures var log := [FirstRecord(req, code, Earlier(c, req, clock))];
            Spaced(c, log) && !KeepsDistance(c, log, req, code, clock, seqNo)
  {
    var earlier := Earlier(c, req, clock);
    var ev := FirstRecord(req, code, earlier);
    var log := [ev];
    var signature := Signature(req.actor.id, TypeOf(req.op), req.task, code);
    assert log[..0] == [] && FindRecent(log, signature, req.logicalTs.value - c.window) == None;
    var w := RefusalWrite(c, log, req, code, clock, seqNo);
    assert LatestTs(log) == earlier && w.Append?;
    var longer := Written(log, w);
    assert longer[0] == ev && longer[1] == w.ev;
    assert HasSignature(longer[1], SignatureOf(longer[0].op.refusal)) && longer[1].ts - longer[0].ts <= c.window;
  }

  /** The five steps of one emit. */
  function EmitSteps(p: Pid, req: Request, clock: int): seq<Step> {
    [Begin(p, req), Lookup(p), TakeLock(p), FoldAndGate(p, clock, 0), Commit(p)]
  }

  /** Such a log is reached: any emit the gate refuses on an empty board, made once with no time of its own
      and again stating one ahead of the clock, leaves two records too close. */
  lemma AheadOfTimeOnARun(c: Config, req: Request, code: Code, clock: int) returns (steps: seq<Step>)
    requires !InTime(c, req, clock) && Gate(EMPTY_BOARD, req.actor, req.op, req.task) == Some(code)
    requires Earlier(c, req, clock) >= 1
    ensures steps == EmitSteps(0, req.(logicalTs := None), Earlier(c, req, clock)) + EmitSteps(1, req, clock)
    ensures var log := Run(c, steps).log;
            && |log| == 2 && log[0] == FirstRecord(req, code, Earlier(c, req, clock))
            && log[1].op == log[0].op && log[1].ts == RowTs(c, log[..1], None, clock)
            && !Spaced(c, log)
  {
    var first, earlier := req.(logicalTs := None), Earlier(c, req, clock);
    var before := EmitSteps(0, first, earlier);
    var ev := FirstRecord(req, code, earlier);
    SoloRunIsEmit(c, [], 0, first, earlier);
    assert [] + before == before;
    FirstRefusal(c, first, code, earlier);
    var s := Run(c, before);
    assert s.log == [ev] && s.lock.None? && s.nextSeq == 2 && s.emitters.Keys == {0};
    steps := before + EmitSteps(1, req, clock);
    SoloRunIsEmit(c, before, 1, req, clock);
    SecondRefusal(c, req, code, clock, ev);
    TooClose(c, req, code, clock, 2);
  }

  lemma FirstRefusal(c: Config, req: Request, code: Code, clock: int)
    requires Gate(EMPTY_BOARD, req.actor, req.op, req.task) == Some(code)
    requires c.serverTime && req.logicalTs.None? && clock >= 1
    ensures EmitLog(c, [], req, clock, 1) == [FirstRecord(req, code, clock)]
  {
    EmptyFold();
    assert Decide(c, [], req, clock, 1) == Refusing(code, Append(FirstRecord(req, code, clock)));
    assert Written([], Append(FirstRecord(req, code, clock))) == [FirstRecord(req, code, clock)];
  }

  lemma SecondRefusal(c: Config, req: Request, code: Code, clock: int, ev: Event)
    requires !InTime(c, req, clock) && ev == FirstRecord(req, code, Earlier(c, req, clock))
    requires Gate(EMPTY_BOARD, req.actor, req.op, req.task) == Some(code)
    ensures var w := RefusalWrite(c, [ev], req, code, clock, 2);
            && Writable([ev], w) && EmitLog(c, [ev], req, clock, 2) == Written([ev], w)
            && w.Append? && w.ev.op == ev.op && w.ev.ts == RowTs(c, [ev], None, clock)
  {
    RecordFold(ev);
    var signature := Signature(req.actor.id, TypeOf(req.op), req.task, code);
    assert [ev][..0] == [] && FindRecent([ev], signature, req.logicalTs.value - c.window) == None;
    assert Decide(c, [ev], req, clock, 2) == Refusing(code, RefusalWrite(c, [ev], req, code, clock, 2));
    assert req.key.Some? ==> FindByKey([ev], req.actor.id, req.key.value) == None;
  }

  lemma RecordFold(ev: Event)
    requires ev.op.RecordRefusal?
    ensures Folded([ev]) == EMPTY_BOARD
  {
    assert SortBySeq([ev]) == [ev] by { SortOfSorted([ev]); }
    assert [ev][..0] == [];
    assert Raw([ev]) == Effect(Raw([]), ev) == EMPTY_BOARD;
    EmptyFold();
  }

  /** For instance, with a window of 5: a planner may not assign; it tries at 100, and again at 101 stating 106. */
  lemma RecordsOneApart() returns (c: Config, steps: seq<Step>)
    ensures c.window == 5
    ensures var log := Run(c, steps).log;
            && |log| == 2 && log[0].op.RecordRefusal? && log[1].op == log[0].op
            && log[0].ts == 100 && log[1].ts == 101 && !Spaced(c, log)
  {
    c := Config(true, 5);
    var req := Request(Actor(Planner, "planner"), Assign("w"), Some("t"), Some(106), None);
    steps := AheadOfTimeOnARun(c, req, NotAuthorized, 101);
  }

  function OutcomeOf(r: Result): Outcome {
    match r
    case Accepted(ev) => Took(SortKey(ev))
    case Rejected(code, _) => Turned(code)
    case Faulted => Raised
  }

  /** What one emit leaves behind, its counters apart. */
  ghost predicate Emitted(c: Config, s: Sys, p: Pid, req: Request, clock: int, after: Sys) {
    && after.log == EmitLog(c, s.log, req, clock, s.nextSeq)
    && after.emitters == s.emitters[p := Emitter(req, Finished(OutcomeOf(EmitResult(c, s.log, req, clock, s.nextSeq))))]
    && after.lock.None? && after.nextSeq == if Found(s, req).Some? then s.nextSeq else s.nextSeq + 1
  }

  /** Alone on a quiet run, an emitter's five steps are one `Gateway.Emit`: same log, same answer. */
  lemma SoloRunIsEmit(c: Config, steps: seq<Step>, p: Pid, req: Request, clock: int)
    requires Run(c, steps).lock.None? && p !in Run(c, steps).emitters
    ensures Emitted(c, Run(c, steps), p, req, clock, Run(c, steps + EmitSteps(p, req, clock)))
  {
    var s := Run(c, steps);
    FiveSteps(c, steps, Begin(p, req), Lookup(p), TakeLock(p), FoldAndGate(p, clock, 0), Commit(p));
    SoloEmit(c, s, p, req, clock);
  }

  lemma SoloEmit(c: Config, s: Sys, p: Pid, req: Request, clock: int)
    requires s.lock.None? && p !in s.emitters
    ensures Emitted(c, s, p, req, clock,
                    DoCommit(DoGate(c, DoTakeLock(DoLookup(DoBegin(s, p, req), p), p), p, clock, 0), p))
  {
    var locked := SoloLock(s, p, req);
    if Found(s, req).None? {
      SoloLocked(c, locked, p, clock);
    }
  }

  /** The first three steps: the lookup answers, or the lock is taken. */
  lemma SoloLock(s: Sys, p: Pid, req: Request) returns (locked: Sys)
    requires s.lock.None? && p !in s.emitters
    ensures locked == DoTakeLock(DoLookup(DoBegin(s, p, req), p), p)
    ensures var found := Found(s, req);
            locked == if found.Some?
                      then s.(emitters := s.emitters[p := Emitter(req, Finished(Took(SortKey(s.log[found.value]))))])
                      else s.(lock := Some(p), emitters := s.emitters[p := Emitter(req, Locked)])
  {
    var begun := DoBegin(s, p, req);
    assert begun == s.(emitters := s.emitters[p := Emitter(req, Begun)]) && Found(begun, req) == Found(s, req);
    locked := DoTakeLock(DoLookup(begun, p), p);
  }

  lemma SoloLocked(c: Config, s: Sys, p: Pid, clock: int)
    requires InPhase(s, p, Locked) && Found(s, s.emitters[p].req).None?
    ensures var req, after := s.emitters[p].req, DoCommit(DoGate(c, s, p, clock, 0), p);
            && after.log == EmitLog(c, s.log, req, clock, s.nextSeq)
            && after.emitters
               == s.emitters[p := Emitter(req, Finished(OutcomeOf(EmitResult(c, s.log, req, clock, s.nextSeq))))]
            && after.lock.None? && after.nextSeq == s.nextSeq + 1
  {
    var req := s.emitters[p].req;
    var d := Decide(c, s.log, req, clock, s.nextSeq);
    DecidedIsWritable(c, s.log, req, clock, s.nextSeq, d);
    GateSettles(c, s, p, clock, 0, d);
    SoloCommit(s, p, d, s.nextSeq);
  }

  lemma DecidedIsWritable(c: Config, log: seq<Event>, req: Request, clock: int, seqNo: int, d: Decision)
    requires d == Decide(c, log, req, clock, seqNo)
    ensures !d.Faulting? ==> Writable(log, WriteOf(d))
  {
  }

  lemma SoloCommit(s: Sys, p: Pid, d: Decision, seqNo: int)
    requires InPhase(s, p, Locked) && Found(s, s.emitters[p].req).None?
    requires !d.Faulting? ==> Writable(s.log, WriteOf(d))
    ensures var after := DoCommit(Settle(s, p, d, seqNo), p);
            && after.log == (if d.Faulting? then s.log else Written(s.log, WriteOf(d)))
            && after.emitters == s.emitters[p := Emitter(s.emitters[p].req, Finished(OutcomeOf(ResultOf(s.log, d))))]
            && after.lock.None? && after.nextSeq == seqNo + 1
  {
  }
}
