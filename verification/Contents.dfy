/** Where the rows of a log come from: on every run, each row is what some emitter asked for and was told it got,
    or the gateway's note of a refusal some emitter was told of; and every such answer has its row. */
module Contents {
  import opened Wrappers
  import opened Collections
  import opened Events
  import opened Reducer
  import opened Gateway
  import opened Emitters
  import opened Refusals

  /** The same operation; a recorded refusal may have been counted up since. */
  predicate SameButCount(a: Op, b: Op) {
    a == b || (a.RecordRefusal? && b.RecordRefusal? && a.refusal.(count := b.refusal.count) == b.refusal)
  }

  /** The emitter was given this row, and the row is what it asked for. */
  predicate Got(e: Emitter, ev: Event) {
    && e.phase.Finished? && e.phase.outcome.Took? && ev.seqNo == Some(e.phase.outcome.seqNo)
    && ev.actor == e.req.actor && SameButCount(ev.op, e.req.op) && ev.task == e.req.task && ev.key == e.req.key
  }

  /** The emitter was refused, and the row is a record of such a refusal of the same actor, operation and task. */
  predicate Noted(e: Emitter, ev: Event) {
    && e.phase.Finished? && e.phase.outcome.Turned?
    && ev.op.RecordRefusal?
    && ev.op.refusal.refusedType == TypeOf(e.req.op) && ev.op.refusal.refusedTask == e.req.task
    && ev.op.refusal.code == e.phase.outcome.code && ev.op.refusal.actorId == e.req.actor.id
  }

  /** The note was the gateway's own, under the refused task and no key. */
  predicate OwnNote(e: Emitter, ev: Event) {
    Noted(e, ev) && ev.actor == Actor(GatewayRole, "gateway") && ev.task == e.req.task && ev.key.None?
  }

  predicate Accounts(s: Sys, p: Pid, ev: Event) {
    p in s.emitters && (Got(s.emitters[p], ev) || OwnNote(s.emitters[p], ev))
  }

  /** The row an emitter's answer speaks of. */
  predicate Backs(e: Emitter, ev: Event) { Got(e, ev) || Noted(e, ev) }

  /** An answer that has to have a row of its own: a refusal, or the acceptance of an emit without a key. */
  predicate Owed(e: Emitter) {
    e.phase.Finished? && (e.phase.outcome.Turned? || (e.phase.outcome.Took? && e.req.key.None?))
  }

  function Refused(s: Sys): set<Pid> {
    set p | p in s.emitters && s.emitters[p].phase.Finished? && s.emitters[p].phase.outcome.Turned?
  }

  ghost predicate RowsInv(s: Sys) { forall ev | ev in s.log :: exists p :: Accounts(s, p, ev) }

  ghost predicate AnswersInv(s: Sys) {
    forall p | p in s.emitters && Owed(s.emitters[p]) :: exists ev :: ev in s.log && Backs(s.emitters[p], ev)
  }

  /** What the lock holder has written says what its request asked. */
  predicate Draft(log: seq<Event>, d: Decision, req: Request) {
    match d
    case Accepting(ev) => AsAsked(ev, req) && ev.seqNo.Some?
    case Refusing(code, Append(ev)) => FirstRecordOf(ev, req, code)
    case Refusing(code, Bump(i)) => i < |log| && RefusalOf(log[i], req, code)
    case Faulting => true
  }

  predicate DraftInv(s: Sys) {
    forall p | p in s.emitters && s.emitters[p].phase.Uncommitted? ::
      Draft(s.log, s.emitters[p].phase.decision, s.emitters[p].req)
  }

  ghost predicate ContentInv(s: Sys) { RowsInv(s) && AnswersInv(s) && DraftInv(s) && s.refused == |Refused(s)| }

  // ---- a step that does not commit ----------------------------------------------------------------------------

  lemma NoNewAnswers(c: Config, s: Sys, step: Step, p: Pid)
    requires !step.Commit? && p in Do(c, s, step).emitters && Owed(Do(c, s, step).emitters[p])
    ensures p in s.emitters && s.emitters[p] == Do(c, s, step).emitters[p]
  {
  }

  lemma GateDrafts(c: Config, s: Sys, step: Step, p: Pid)
    requires var s' := Do(c, s, step);
             p in s'.emitters && s'.emitters[p].phase.Uncommitted?
             && !(p in s.emitters && s'.emitters[p] == s.emitters[p])
    ensures Draft(s.log, Do(c, s, step).emitters[p].phase.decision, Do(c, s, step).emitters[p].req)
  {
    OnlyGateWrites(c, s, step, p);
    FinishedStays(c, s, step);
    DecisionDrafts(c, s.log, s.emitters[p].req, step.clock, s.nextSeq + step.gap);
  }

  lemma DecisionDrafts(c: Config, log: seq<Event>, req: Request, clock: int, seqNo: int)
    ensures Draft(log, Decide(c, log, req, clock, seqNo), req)
  {
    DecisionSays(c, log, req, clock, seqNo);
    var d := Decide(c, log, req, clock, seqNo);
    if d.Refusing? {
      var hit := RepeatIsHit(c, log, req, d.code, clock);
    }
  }

  lemma QuietContent(c: Config, s: Sys, step: Step)
    requires ContentInv(s) && !step.Commit?
    ensures ContentInv(Do(c, s, step))
  {
    var s' := Do(c, s, step);
    OnlyCommitWrites(c, s, step);
    FinishedStays(c, s, step);
    forall ev | ev in s'.log
      ensures exists p :: Accounts(s', p, ev)
    {
      var p :| Accounts(s, p, ev);
      assert Accounts(s', p, ev);
    }
    forall p | p in s'.emitters && Owed(s'.emitters[p])
      ensures exists ev :: ev in s'.log && Backs(s'.emitters[p], ev)
    {
      NoNewAnswers(c, s, step, p);
    }
    forall p | p in s'.emitters && s'.emitters[p].phase.Uncommitted?
      ensures Draft(s'.log, s'.emitters[p].phase.decision, s'.emitters[p].req)
    {
      if !(p in s.emitters && s'.emitters[p] == s.emitters[p]) { GateDrafts(c, s, step, p); }
    }
    SameRefused(c, s, step);
  }

  lemma SameRefused(c: Config, s: Sys, step: Step)
    requires !step.Commit?
    ensures Refused(Do(c, s, step)) == Refused(s)
  {
    FinishedStays(c, s, step);
    forall p | p in Refused(Do(c, s, step))
      ensures p in Refused(s)
    {
      NoNewAnswers(c, s, step, p);
    }
  }

  // ---- a commit -----------------------------------------------------------------------------------------------

  /** The holder's commit, spelled out. */
  lemma Commits(s: Sys, p: Pid) returns (s': Sys, own: Emitter)
    requires p in s.emitters && s.emitters[p].phase.Uncommitted?
    requires var d := s.emitters[p].phase.decision; !d.Faulting? && Writable(s.log, WriteOf(d))
    ensures s' == DoCommit(s, p)
    ensures var d := s.emitters[p].phase.decision;
            && own == Emitter(s.emitters[p].req,
                              Finished(if d.Accepting? then Took(SortKey(d.ev)) else Turned(d.code)))
            && s'.log == Written(s.log, WriteOf(d)) && s'.emitters == s.emitters[p := own]
            && s'.refused == s.refused + if d.Refusing? then 1 else 0
  {
    s' := DoCommit(s, p);
    own := s'.emitters[p];
  }

  /** A row is accounted for, and answers for emitters, whatever its count. */
  lemma CountAside(e: Emitter, ev: Event)
    requires ev.op.RecordRefusal?
    ensures Got(e, Bumped(ev)) <==> Got(e, ev)
    ensures Noted(e, Bumped(ev)) <==> Noted(e, ev)
    ensures OwnNote(e, Bumped(ev)) <==> OwnNote(e, ev)
  {
  }

  lemma CommitRows(s: Sys, p: Pid, s': Sys, own: Emitter, w: Write)
    requires RowsInv(s) && p in s.emitters && !s.emitters[p].phase.Finished?
    requires s'.emitters == s.emitters[p := own] && Writable(s.log, w) && s'.log == Written(s.log, w)
    requires w.Append? ==> Got(own, w.ev) || OwnNote(own, w.ev)
    ensures RowsInv(s')
  {
    forall ev | ev in s'.log
      ensures exists q :: Accounts(s', q, ev)
    {
      if ev in s.log {
        StillAccounts(s, p, s', own, ev);
      } else {
        match w {
          case Append(_) => assert Accounts(s', p, ev);
          case Bump(i) =>
            StillAccounts(s, p, s', own, s.log[i]);
            var q :| Accounts(s', q, s.log[i]);
            CountAside(s'.emitters[q], s.log[i]);
            assert ev == Bumped(s.log[i]) && Accounts(s', q, ev);
        }
      }
    }
  }

  lemma StillAccounts(s: Sys, p: Pid, s': Sys, own: Emitter, ev: Event)
    requires RowsInv(s) && p in s.emitters && !s.emitters[p].phase.Finished? && s'.emitters == s.emitters[p := own]
    requires ev in s.log
    ensures exists q :: Accounts(s', q, ev)
  {
    var q :| Accounts(s, q, ev);
    assert Accounts(s', q, ev);
  }

  /** A row that backs an answer still does once written to. */
  lemma StillBacked(e: Emitter, log: seq<Event>, w: Write, ev: Event)
    requires Writable(log, w) && ev in log && Backs(e, ev)
    ensures exists row :: row in Written(log, w) && Backs(e, row)
  {
    match w {
      case Append(_) => assert ev in Written(log, w);
      case Bump(i) =>
        var k :| 0 <= k < |log| && log[k] == ev;
        var row := Written(log, w)[k];
        if k == i { CountAside(e, ev); }
        assert row in Written(log, w) && Backs(e, row);
    }
  }

  lemma CommitAnswers(s: Sys, p: Pid, s': Sys, own: Emitter, w: Write)
    requires AnswersInv(s) && p in s.emitters
    requires s'.emitters == s.emitters[p := own] && Writable(s.log, w) && s'.log == Written(s.log, w)
    requires exists ev :: ev in s'.log && Backs(own, ev)
    ensures AnswersInv(s')
  {
    forall q | q in s'.emitters && Owed(s'.emitters[q])
      ensures exists ev :: ev in s'.log && Backs(s'.emitters[q], ev)
    {
      if q != p {
        var ev :| ev in s.log && Backs(s.emitters[q], ev);
        StillBacked(s.emitters[q], s.log, w, ev);
      }
    }
  }

  /** The holder's own write answers it. */
  lemma OwnWrite(s: Sys, p: Pid, s': Sys, own: Emitter) returns (row: Event)
    requires p in s.emitters && s.emitters[p].phase.Uncommitted?
    requires var d := s.emitters[p].phase.decision;
             && !d.Faulting? && Writable(s.log, WriteOf(d)) && Draft(s.log, d, s.emitters[p].req)
             && own == Emitter(s.emitters[p].req,
                               Finished(if d.Accepting? then Took(SortKey(d.ev)) else Turned(d.code)))
             && s'.log == Written(s.log, WriteOf(d))
    ensures row in s'.log && Backs(own, row)
    ensures var w := WriteOf(s.emitters[p].phase.decision);
            w.Append? ==> Got(own, w.ev) || OwnNote(own, w.ev)
  {
    match WriteOf(s.emitters[p].phase.decision) {
      case Append(ev) =>
        row := s'.log[|s.log|];
      case Bump(i) =>
        row := s'.log[i];
    }
  }

  lemma CommitRefused(s: Sys, p: Pid, s': Sys, own: Emitter)
    requires p in s.emitters && s.emitters[p].phase.Uncommitted? && own.phase.Finished?
    requires s'.emitters == s.emitters[p := own]
    ensures |Refused(s')| == |Refused(s)| + if own.phase.outcome.Turned? then 1 else 0
  {
    assert Refused(s') == if own.phase.outcome.Turned? then Refused(s) + {p} else Refused(s);
  }

  lemma CommitContent(s: Sys, p: Pid)
    requires Inv(s) && ContentInv(s)
    ensures ContentInv(DoCommit(s, p))
  {
    if p in s.emitters && s.emitters[p].phase.Uncommitted? {
      assert PhaseInv(s, p, s.emitters[p]);
      var s', own := Commits(s, p);
      var w := WriteOf(s.emitters[p].phase.decision);
      var row := OwnWrite(s, p, s', own);
      CommitRows(s, p, s', own, w);
      CommitAnswers(s, p, s', own, w);
      CommitRefused(s, p, s', own);
      forall q | q in s'.emitters
        ensures !s'.emitters[q].phase.Uncommitted?
      {
        assert PhaseInv(s, q, s.emitters[q]);
      }
    }
  }

  lemma {:induction false} RunKeepsContent(c: Config, steps: seq<Step>)
    ensures ContentInv(Run(c, steps))
  {
    if steps != [] {
      var init, step := steps[..|steps| - 1], steps[|steps| - 1];
      RunKeepsContent(c, init);
      RunKeepsInv(c, init);
      if step.Commit? {
        CommitContent(Run(c, init), step.p);
      } else {
        QuietContent(c, Run(c, init), step);
      }
    }
  }

  // ---- what every run guarantees ------------------------------------------------------------------------------

  /** No row comes from nowhere: each was asked for by an emitter that was told it got it, with that actor,
      operation, task and key, or is the gateway's own record of a refusal an emitter was told of. */
  lemma EveryRowWasAskedFor(c: Config, steps: seq<Step>, i: nat) returns (p: Pid)
    requires i < |Run(c, steps).log|
    ensures var s := Run(c, steps);
            p in s.emitters && (Got(s.emitters[p], s.log[i]) || OwnNote(s.emitters[p], s.log[i]))
  {
    RunKeepsContent(c, steps);
    p := AskedBy(Run(c, steps), Run(c, steps).log[i]);
  }

  lemma AskedBy(s: Sys, ev: Event) returns (p: Pid)
    requires RowsInv(s) && ev in s.log
    ensures Accounts(s, p, ev)
  {
    p :| Accounts(s, p, ev);
  }

  /** No answer is empty: an emitter that was refused finds its refusal in the log, and one without a key that
      was accepted finds the row it asked for. */
  lemma EveryAnswerHasItsRow(c: Config, steps: seq<Step>, p: Pid)
    requires p in Run(c, steps).emitters && Run(c, steps).emitters[p].phase.Finished?
    ensures var s := Run(c, steps); var e := s.emitters[p];
            && (e.phase.outcome.Turned? ==> exists ev :: ev in s.log && Noted(e, ev))
            && (e.phase.outcome.Took? && e.req.key.None? ==> exists ev :: ev in s.log && Got(e, ev))
  {
    RunKeepsContent(c, steps);
    var s := Run(c, steps);
    var e := s.emitters[p];
    if Owed(e) {
      var ev :| ev in s.log && Backs(e, ev);
    }
  }

  /** While no caller has posted refusal records itself, the records' counts add up to exactly the emitters
      that were refused. */
  lemma CountsAreRefusedEmitters(c: Config, steps: seq<Step>)
    requires Run(c, steps).posted == 0
    ensures Counted(Run(c, steps).log) == |Refused(Run(c, steps))|
  {
    RunKeepsContent(c, steps);
    RefusalsAreConserved(c, steps);
  }
}
