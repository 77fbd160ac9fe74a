/** The write path: idempotency lookup, the gate against the run so far, and the refusal record with its
    coalescing window. */
module Gateway {
  import opened Wrappers
  import opened Events
  import opened State
  import opened Legality
  import opened Reducer
  import opened Runs
  import Board
  import Rulebook

  datatype Request = Request(actor: Actor, op: Op, task: Option<string>, logicalTs: Option<int>, key: Option<string>)

  /** How the store keeps time, and the flood-control window. */
  datatype Config = Config(serverTime: bool, window: int)

  // ---- the store's reads ---------------------------------------------------------------------------

  predicate HasKey(ev: Event, actorId: string, key: string) { ev.actor.id == actorId && ev.key == Some(key) }

  function FindByKey(log: seq<Event>, actorId: string, key: string): (found: Option<nat>)
    ensures found.Some? ==> found.value < |log| && HasKey(log[found.value], actorId, key)
    ensures found.None? ==> forall e | e in log :: !HasKey(e, actorId, key)
  {
    if log == [] then None
    else if HasKey(log[|log| - 1], actorId, key) then Some(|log| - 1)
    else FindByKey(log[..|log| - 1], actorId, key)
  }

  /** What two refusals must agree on to coalesce. */
  datatype Signature = Signature(actorId: string, kind: EventType, task: Option<string>, code: Code)

  predicate HasSignature(ev: Event, s: Signature) {
    ev.op.RecordRefusal? && ev.op.refusal.actorId == s.actorId && ev.op.refusal.refusedType == s.kind
    && ev.op.refusal.refusedTask == s.task && ev.op.refusal.code == s.code
  }

  /** The latest record of this signature no older than `since`. */
  function FindRecent(log: seq<Event>, s: Signature, since: int): (found: Option<nat>)
    ensures found.Some? ==> found.value < |log| && HasSignature(log[found.value], s) && log[found.value].ts >= since
    ensures found.Some? ==> forall j | found.value < j < |log| && HasSignature(log[j], s) :: log[j].ts < since
    ensures found.None? ==> forall e | e in log && HasSignature(e, s) :: e.ts < since
  {
    if log == [] then None
    else if HasSignature(log[|log| - 1], s) && log[|log| - 1].ts >= since then Some(|log| - 1)
    else FindRecent(log[..|log| - 1], s, since)
  }

  /** The latest logical time in the run, 0 for an empty one. */
  function LatestTs(log: seq<Event>): int {
    if log == [] then 0
    else if |log| == 1 || LatestTs(log[..|log| - 1]) <= log[|log| - 1].ts then log[|log| - 1].ts
    else LatestTs(log[..|log| - 1])
  }

  /** The logical time the store gives a row: its own, past every earlier one, or else the caller's. */
  function RowTs(c: Config, log: seq<Event>, given: Option<int>, clock: int): int {
    if c.serverTime then (if clock >= LatestTs(log) + 1 then clock else LatestTs(log) + 1)
    else if given.Some? then given.value else clock
  }

  // ---- one emit under the run's lock -----------------------------------------------------------------

  datatype Write = Append(ev: Event) | Bump(index: nat)

  /** A caller-supplied time on a server-time store is a fault, not a refusal. */
  datatype Decision = Accepting(ev: Event) | Refusing(code: Code, write: Write) | Faulting

  function RefusalWrite(c: Config, log: seq<Event>, req: Request, code: Code, clock: int, seqNo: int): Write {
    var now := if req.logicalTs.Some? then req.logicalTs.value else clock;
    var signature := Signature(req.actor.id, TypeOf(req.op), req.task, code);
    var hit := FindRecent(log, signature, now - c.window);
    if hit.Some? then Bump(hit.value)
    else Append(Event(Some(seqNo), seqNo, RowTs(c, log, Some(now), clock), Actor(GatewayRole, "gateway"),
                      RecordRefusal(Refusal(TypeOf(req.op), req.task, code, req.actor.id, 1)), req.task, None))
  }

  /** Fold and gate the run, then accept, refuse or fault. */
  function Decide(c: Config, log: seq<Event>, req: Request, clock: int, seqNo: int): Decision {
    match Gate(Folded(log), req.actor, req.op, req.task)
    case Some(code) => Refusing(code, RefusalWrite(c, log, req, code, clock, seqNo))
    case None =>
      if c.serverTime && req.logicalTs.Some? then Faulting
      else Accepting(Event(Some(seqNo), seqNo, RowTs(c, log, req.logicalTs, clock), req.actor, req.op,
                           req.task, req.key))
  }

  function WriteOf(d: Decision): Write
    requires !d.Faulting?
  {
    if d.Accepting? then Append(d.ev) else d.write
  }

  function Bumped(ev: Event): Event
    requires ev.op.RecordRefusal?
  {
    ev.(op := RecordRefusal(ev.op.refusal.(count := ev.op.refusal.count + 1)))
  }

  predicate Writable(log: seq<Event>, w: Write) {
    w.Bump? ==> w.index < |log| && log[w.index].op.RecordRefusal?
  }

  function Written(log: seq<Event>, w: Write): seq<Event>
    requires Writable(log, w)
  {
    match w
    case Append(ev) => log + [ev]
    case Bump(i) => log[i := Bumped(log[i])]
  }

  /** No two rows share an actor id and an idempotency key. */
  ghost predicate UniqueKeys(log: seq<Event>) {
    forall i, j | 0 <= i < j < |log| && log[i].key.Some? :: !HasKey(log[j], log[i].actor.id, log[i].key.value)
  }

  ghost predicate Below(log: seq<Event>, seqNo: int) { forall e | e in log :: SortKey(e) < seqNo }

  // ---- what a bump leaves alone ------------------------------------------------------------------------

  /** Two logs alike but for the counts of recorded refusals, which only grow. */
  ghost predicate Alike(a: seq<Event>, b: seq<Event>) {
    |a| == |b| && forall i | 0 <= i < |a| :: AlikeRow(a[i], b[i])
  }

  predicate AlikeRow(e: Event, f: Event) {
    e == f || (e.op.RecordRefusal? && f.op.RecordRefusal? && e.op.refusal.count <= f.op.refusal.count
               && e.(op := RecordRefusal(e.op.refusal.(count := f.op.refusal.count))) == f)
  }

  lemma {:induction false} AlikeFold(a: seq<Event>, b: seq<Event>, n: nat)
    requires Alike(a, b) && n <= |a|
    ensures Raw(a[..n]) == Raw(b[..n])
    ensures AcceptedUpTo(a, n) ==> AcceptedUpTo(b, n)
    decreases n
  {
    if n > 0 {
      AlikeFold(a, b, n - 1);
      AtStep(a, n - 1);
      AtStep(b, n - 1);
      assert AlikeRow(a[n - 1], b[n - 1]);
    }
  }

  lemma AlikeGateBuilt(a: seq<Event>, b: seq<Event>)
    requires Alike(a, b) && GateBuilt(a)
    ensures GateBuilt(b) && Raw(b) == Raw(a)
  {
    AlikeFold(a, b, |a|);
    assert a[..|a|] == a && b[..|b|] == b;
    assert forall i | 0 <= i < |a| :: AlikeRow(a[i], b[i]);
  }

  lemma AlikeKeys(a: seq<Event>, b: seq<Event>)
    requires Alike(a, b) && UniqueKeys(a)
    ensures UniqueKeys(b)
  {
    assert forall i | 0 <= i < |a| :: AlikeRow(a[i], b[i]);
  }

  // ---- the one decision keeps the log sound --------------------------------------------------------------

  /** The log, its keys and the next sequence number, as the store keeps them. */
  ghost predicate Sound(log: seq<Event>, seqNo: int) { GateBuilt(log) && UniqueKeys(log) && Below(log, seqNo) }

  lemma AppendKeepsLog(log: seq<Event>, ev: Event, seqNo: int)
    requires Sound(log, seqNo) && Accepts(Raw(log), ev) && ev.seqNo == Some(seqNo)
    requires ev.key.Some? ==> forall e | e in log :: !HasKey(e, ev.actor.id, ev.key.value)
    ensures Sound(log + [ev], seqNo + 1)
  {
    GateBuiltExtend(log, ev);
    var longer := log + [ev];
    forall i, j | 0 <= i < j < |longer| && longer[i].key.Some?
      ensures !HasKey(longer[j], longer[i].actor.id, longer[i].key.value)
    {
      assert i < |log| ==> longer[i] in log;
      assert j == |log| && ev.key.Some? ==> !HasKey(longer[i], ev.actor.id, ev.key.value);
    }
  }

  lemma BumpKeepsLog(log: seq<Event>, i: nat, seqNo: int)
    requires Sound(log, seqNo) && Writable(log, Bump(i))
    ensures Sound(Written(log, Bump(i)), seqNo + 1)
    ensures Alike(log, Written(log, Bump(i))) && Raw(Written(log, Bump(i))) == Raw(log)
  {
    var bumped := Written(log, Bump(i));
    assert Alike(log, bumped);
    AlikeGateBuilt(log, bumped);
    AlikeKeys(log, bumped);
    forall e | e in bumped
      ensures SortKey(e) < seqNo + 1
    {
      var k :| 0 <= k < |bumped| && bumped[k] == e;
      assert SortKey(bumped[k]) == SortKey(log[k]);
    }
  }

  /** The gate itself lets the gateway record a refusal. */
  lemma RefusalRecordAccepted(b: BoardView, ev: Event)
    requires ev.actor.role == GatewayRole && ev.op.RecordRefusal?
    ensures Accepts(b, ev)
  {
  }

  /** Whatever `Decide` writes on a sound log leaves a sound log. */
  lemma DecisionKeepsLog(c: Config, log: seq<Event>, req: Request, clock: int, seqNo: int)
    requires Sound(log, seqNo)
    requires req.key.Some? ==> forall e | e in log :: !HasKey(e, req.actor.id, req.key.value)
    ensures var d := Decide(c, log, req, clock, seqNo);
            && (d.Accepting? ==> Accepts(Raw(log), d.ev))
            && (!d.Faulting? ==> Writable(log, WriteOf(d)) && Sound(Written(log, WriteOf(d)), seqNo + 1))
  {
    FoldedIsDerived(log);
    match Decide(c, log, req, clock, seqNo) {
      case Accepting(ev) =>
        assert Accepts(Raw(log), ev);
        AppendKeepsLog(log, ev, seqNo);
      case Refusing(code, write) =>
        RefusalKeepsLog(c, log, req, code, clock, seqNo);
      case Faulting =>
    }
  }

  lemma RefusalKeepsLog(c: Config, log: seq<Event>, req: Request, code: Code, clock: int, seqNo: int)
    requires Sound(log, seqNo)
    ensures var w := RefusalWrite(c, log, req, code, clock, seqNo);
            Writable(log, w) && Sound(Written(log, w), seqNo + 1)
  {
    match RefusalWrite(c, log, req, code, clock, seqNo) {
      case Append(ev) =>
        RefusalRecordAccepted(Raw(log), ev);
        AppendKeepsLog(log, ev, seqNo);
      case Bump(i) => BumpKeepsLog(log, i, seqNo);
    }
  }

  datatype Result = Accepted(ev: Event) | Rejected(code: Code, record: int) | Faulted

  function ResultOf(log: seq<Event>, d: Decision): Result
    requires !d.Faulting? ==> Writable(log, WriteOf(d))
  {
    match d
    case Accepting(ev) => Accepted(ev)
    case Refusing(code, Append(ev)) => Rejected(code, ev.eventId)
    case Refusing(code, Bump(i)) => Rejected(code, log[i].eventId)
    case Faulting => Faulted
  }

  /** The log after one whole emit. */
  function EmitLog(c: Config, log: seq<Event>, req: Request, clock: int, seqNo: int): seq<Event> {
    if req.key.Some? && FindByKey(log, req.actor.id, req.key.value).Some? then log
    else
      var d := Decide(c, log, req, clock, seqNo);
      if d.Faulting? || !Writable(log, WriteOf(d)) then log else Written(log, WriteOf(d))
  }

  /** What one whole emit returns. */
  function EmitResult(c: Config, log: seq<Event>, req: Request, clock: int, seqNo: int): Result {
    var found := if req.key.Some? then FindByKey(log, req.actor.id, req.key.value) else None;
    if found.Some? then Accepted(log[found.value])
    else
      var d := Decide(c, log, req, clock, seqNo);
      if !d.Faulting? && Writable(log, WriteOf(d)) then ResultOf(log, d) else Faulted
  }

  // ---- the same, said of rows --------------------------------------------------------------------------------

  /** The row says what the caller asked for, under the caller's key. */
  predicate AsAsked(ev: Event, req: Request) {
    ev.actor == req.actor && ev.op == req.op && ev.task == req.task && ev.key == req.key
  }

  /** Past every row; on an empty log, past zero. */
  predicate PastAll(log: seq<Event>, ts: int) { if log == [] then 0 < ts else forall e | e in log :: e.ts < ts }

  /** The time of the next row. A store that keeps its own gives the earliest time past every row and not before
      its clock; any other takes the time given, or else the clock's. */
  predicate Timed(c: Config, log: seq<Event>, given: Option<int>, clock: int, ts: int) {
    if c.serverTime then clock <= ts && PastAll(log, ts) && (ts == clock || !PastAll(log, ts - 1))
    else ts == if given.Some? then given.value else clock
  }

  lemma {:induction false} LatestIsLatest(log: seq<Event>)
    ensures forall e | e in log :: e.ts <= LatestTs(log)
    ensures log != [] ==> exists e :: e in log && e.ts == LatestTs(log)
  {
    if log != [] {
      var init, last := log[..|log| - 1], log[|log| - 1];
      LatestIsLatest(init);
      assert log == init + [last] && last in log;
      assert forall e | e in init :: e in log;
    }
  }

  lemma RowTsIs(c: Config, log: seq<Event>, given: Option<int>, clock: int, ts: int)
    ensures Timed(c, log, given, clock, ts) <==> ts == RowTs(c, log, given, clock)
  {
    LatestIsLatest(log);
    if log != [] {
      assert PastAll(log, ts) <==> ts > LatestTs(log);
      assert PastAll(log, ts - 1) <==> ts - 1 > LatestTs(log);
    }
  }

  /** The row records a refusal of this request with this code. */
  predicate RefusalOf(ev: Event, req: Request, code: Code) {
    && ev.op.RecordRefusal? && ev.op.refusal.refusedType == TypeOf(req.op) && ev.op.refusal.refusedTask == req.task
    && ev.op.refusal.code == code && ev.op.refusal.actorId == req.actor.id
  }

  /** A first record: the gateway's own row about the request, counting one. */
  predicate FirstRecordOf(ev: Event, req: Request, code: Code) {
    RefusalOf(ev, req, code) && ev.op.refusal.count == 1 && ev.actor == Actor(GatewayRole, "gateway")
    && ev.task == req.task && ev.key.None?
  }

  /** Row `i` records the same refusal, no more than the window ago. */
  predicate Repeats(c: Config, log: seq<Event>, req: Request, code: Code, clock: int, i: int) {
    && 0 <= i < |log| && RefusalOf(log[i], req, code)
    && log[i].ts >= (if req.logicalTs.Some? then req.logicalTs.value else clock) - c.window
  }

  /** What a refusal leaves: the latest recent record of it counted once more, or a first record at the end. */
  ghost predicate Recorded(c: Config, before: seq<Event>, req: Request, code: Code, clock: int, seqNo: int,
                           after: seq<Event>, record: int) {
    && (forall i :: Repeats(c, before, req, code, clock, i)
                    && (forall j | i < j :: !Repeats(c, before, req, code, clock, j)) ==>
          var row, refusal := before[i], before[i].op.refusal;
          record == row.eventId
          && after == before[i := row.(op := RecordRefusal(refusal.(count := refusal.count + 1)))])
    && ((forall i :: !Repeats(c, before, req, code, clock, i)) ==>
          |after| == |before| + 1 && after[..|before|] == before
          && (var ev := after[|before|];
              && FirstRecordOf(ev, req, code) && ev.seqNo == Some(seqNo) && record == ev.eventId == seqNo
              && Timed(c, before, req.logicalTs, clock, ev.ts)))
  }

  lemma RepeatIsHit(c: Config, log: seq<Event>, req: Request, code: Code, clock: int) returns (hit: Option<nat>)
    ensures var now := if req.logicalTs.Some? then req.logicalTs.value else clock;
            hit == FindRecent(log, Signature(req.actor.id, TypeOf(req.op), req.task, code), now - c.window)
    ensures hit.Some? ==> Repeats(c, log, req, code, clock, hit.value)
                          && forall i | hit.value < i :: !Repeats(c, log, req, code, clock, i)
    ensures hit.None? ==> forall i :: !Repeats(c, log, req, code, clock, i)
  {
    var now := if req.logicalTs.Some? then req.logicalTs.value else clock;
    var signature := Signature(req.actor.id, TypeOf(req.op), req.task, code);
    hit := FindRecent(log, signature, now - c.window);
    assert forall i | 0 <= i < |log| ::
        log[i] in log && (RefusalOf(log[i], req, code) <==> HasSignature(log[i], signature));
  }

  lemma RefusalIsRecorded(c: Config, log: seq<Event>, req: Request, code: Code, clock: int, seqNo: int)
    ensures var w := RefusalWrite(c, log, req, code, clock, seqNo);
            Writable(log, w)
            && Recorded(c, log, req, code, clock, seqNo, Written(log, w), ResultOf(log, Refusing(code, w)).record)
  {
    var hit := RepeatIsHit(c, log, req, code, clock);
    var now := if req.logicalTs.Some? then req.logicalTs.value else clock;
    RowTsIs(c, log, req.logicalTs, clock, RowTs(c, log, Some(now), clock));
  }

  /** Decided on any log: an operation the gate lets through becomes the row that was asked for; a stated time
      on a store that keeps its own is a fault; and a refusal is recorded under its code. */
  lemma DecisionSays(c: Config, log: seq<Event>, req: Request, clock: int, seqNo: int)
    ensures var d, gate := Decide(c, log, req, clock, seqNo), Gate(Folded(log), req.actor, req.op, req.task);
            && (d.Faulting? <==> gate.None? && c.serverTime && req.logicalTs.Some?)
            && (d.Accepting? <==> gate.None? && !(c.serverTime && req.logicalTs.Some?))
            && (d.Refusing? ==> gate == Some(d.code))
            && (d.Accepting? ==> AsAsked(d.ev, req) && d.ev.seqNo == Some(seqNo) && d.ev.eventId == seqNo
                                 && Timed(c, log, req.logicalTs, clock, d.ev.ts))
            && (d.Refusing? ==> Writable(log, d.write)
                                && Recorded(c, log, req, d.code, clock, seqNo, Written(log, d.write),
                                            ResultOf(log, d).record))
  {
    RowTsIs(c, log, req.logicalTs, clock, RowTs(c, log, req.logicalTs, clock));
    var gate := Gate(Folded(log), req.actor, req.op, req.task);
    if gate.Some? { RefusalIsRecorded(c, log, req, gate.value, clock, seqNo); }
  }

  /** No row answers for the request's key. */
  ghost predicate Unused(log: seq<Event>, req: Request) {
    forall e | e in log :: req.key.None? || e.actor.id != req.actor.id || e.key != req.key
  }

  /** What a fresh request comes to, as the log before and after and the answer show it. */
  ghost predicate Answered(c: Config, before: seq<Event>, req: Request, clock: int, seqNo: int, after: seq<Event>,
                           result: Result) {
    match Gate(Derive(Raw(before)), req.actor, req.op, req.task)
    case Some(code) =>
      result.Rejected? && result.code == code && Recorded(c, before, req, code, clock, seqNo, after, result.record)
    case None =>
      if c.serverTime && req.logicalTs.Some? then result.Faulted? && after == before
      else
        && result.Accepted? && after == before + [result.ev] && AsAsked(result.ev, req)
        && result.ev.seqNo == Some(seqNo) && result.ev.eventId == seqNo
        && Timed(c, before, req.logicalTs, clock, result.ev.ts)
  }

  lemma DecisionAnswers(c: Config, log: seq<Event>, req: Request, clock: int, seqNo: int)
    requires GateBuilt(log)
    ensures var d := Decide(c, log, req, clock, seqNo);
            && (!d.Faulting? ==> Writable(log, WriteOf(d)))
            && Answered(c, log, req, clock, seqNo, if d.Faulting? then log else Written(log, WriteOf(d)),
                        ResultOf(log, d))
  {
    FoldedIsDerived(log);
    DecisionSays(c, log, req, clock, seqNo);
  }

  lemma OneRowOfKey(log: seq<Event>, req: Request, i: nat)
    requires UniqueKeys(log) && req.key.Some? && i < |log| && HasKey(log[i], req.actor.id, req.key.value)
    ensures forall e | e in log && e.actor.id == req.actor.id && e.key == req.key :: e == log[i]
  {
    forall e | e in log && e.actor.id == req.actor.id && e.key == req.key
      ensures e == log[i]
    {
      var j :| 0 <= j < |log| && log[j] == e;
      assert HasKey(log[j], log[i].actor.id, log[i].key.value) && !(i < j) && !(j < i);
    }
  }

  /** The gateway over one run's store, as its only writer sees it: each emit is one serialized unit. */
  class Gateway {
    const config: Config
    var log: seq<Event>
    var nextSeq: int

    ghost predicate Valid()
      reads this
    {
      Sound(log, nextSeq)
    }

    constructor (config: Config)
      ensures Valid() && log == [] && this.config == config
    {
      this.config, log, nextSeq := config, [], 1;
    }

    /** Would this emit be accepted? Appends nothing. */
    method Check(actor: Actor, op: Op, task: Option<string>) returns (refusal: Option<Code>)
      requires Valid()
      ensures refusal == Gate(Derive(Raw(log)), actor, op, task)
      ensures var ev := Event(None, 0, 0, actor, op, task, None);
              refusal.None? <==> Rulebook.Entitled(Raw(log), ev) && Rulebook.Lawful(Raw(log), ev)
    {
      Rulebook.GateTable(Raw(log), Event(None, 0, 0, actor, op, task, None));
      var board := Board.Fold(log);
      FoldedIsDerived(log);
      refusal := Gate(board.View(), actor, op, task);
    }

    /** The write path. A key already used returns the row it named and writes nothing. A fresh operation the
        gate lets through appends the row that was asked for; a refused one is recorded; and a stated time on a
        store that keeps its own is a fault. */
    method Emit(req: Request, clock: int) returns (result: Result)
      requires Valid()
      modifies this
      ensures Valid()
      ensures log == EmitLog(config, old(log), req, clock, old(nextSeq))
      ensures result == EmitResult(config, old(log), req, clock, old(nextSeq))
      ensures forall e | e in old(log) && req.key.Some? && e.actor.id == req.actor.id && e.key == req.key ::
                log == old(log) && result == Accepted(e)
      ensures Unused(old(log), req) ==> Answered(config, old(log), req, clock, old(nextSeq), log, result)
    {
      if req.key.Some? {
        var existing := FindByKey(log, req.actor.id, req.key.value);
        if existing.Some? {
          OneRowOfKey(log, req, existing.value);
          return Accepted(log[existing.value]);
        }
      }
      DecisionAnswers(config, log, req, clock, nextSeq);
      result := GateAndWrite(req, clock);
    }

    /** The part under the run's lock: fold and gate, then append, refuse or fault. */
    method GateAndWrite(req: Request, clock: int) returns (result: Result)
      requires Valid() && Unused(log, req)
      modifies this
      ensures Valid()
      ensures var d := Decide(config, old(log), req, clock, old(nextSeq));
              && (!d.Faulting? ==> Writable(old(log), WriteOf(d)))
              && log == (if d.Faulting? then old(log) else Written(old(log), WriteOf(d)))
              && result == ResultOf(old(log), d)
    {
      DecisionKeepsLog(config, log, req, clock, nextSeq);
      var refusal := Check(req.actor, req.op, req.task);
      FoldedIsDerived(log);
      if refusal.Some? {
        result := RecordRejection(req, refusal.value, clock);
      } else if config.serverTime && req.logicalTs.Some? {
        result := Faulted;
      } else {
        var ev := Event(Some(nextSeq), nextSeq, RowTs(config, log, req.logicalTs, clock), req.actor, req.op,
                        req.task, req.key);
        log, nextSeq := log + [ev], nextSeq + 1;
        result := Accepted(ev);
      }
    }

    /** Persist the refusal, or coalesce it onto a recent one of the same signature. */
    method RecordRejection(req: Request, code: Code, clock: int) returns (result: Result)
      modifies this
      ensures var w := RefusalWrite(config, old(log), req, code, clock, old(nextSeq));
              && Writable(old(log), w) && log == Written(old(log), w)
              && result == ResultOf(old(log), Refusing(code, w))
      ensures result.Rejected? && result.code == code
              && Recorded(config, old(log), req, code, clock, old(nextSeq), log, result.record)
      ensures nextSeq == old(nextSeq) + 1
    {
      RefusalIsRecorded(config, log, req, code, clock, nextSeq);
      var write := RefusalWrite(config, log, req, code, clock, nextSeq);
      match write {
        case Append(ev) =>
          result := Rejected(code, ev.eventId);
          log := log + [ev];
        case Bump(i) =>
          result := Rejected(code, log[i].eventId);
          log := log[i := Bumped(log[i])];
      }
      nextSeq := nextSeq + 1;
    }
  }
}
