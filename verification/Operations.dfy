/** The operation service: one operation as its caller sees it. The command loop, the outcome written on
    the receipt, and the replay of a receipt already there. */
module Operations {
  import opened Wrappers

  datatype Kind = Answer | Resume | Close | Merge | Abandon | Launch

  /** What an operation id is bound to: operation, surface and parameters. */
  datatype Request = Request(kind: Kind, surface: string, params: map<string, string>)

  datatype Status = Running | Completed | Failing | Refusing

  /** A command's exit status, or none where it timed out. */
  type Exit = Option<int>

  datatype Receipt = Receipt(request: Request, status: Status, exits: seq<Exit>, merged: Option<bool>,
                             unconfirmed: bool)

  const NUDGE_UNCONFIRMED := 3

  /** An answer and a resume may end unconfirmed: the line was typed, not seen to arrive. */
  predicate Tolerated(kind: Kind, exit: Exit) {
    exit == Some(0) || ((kind == Answer || kind == Resume) && exit == Some(NUDGE_UNCONFIRMED))
  }

  predicate AllTolerated(kind: Kind, exits: seq<Exit>) {
    forall i | 0 <= i < |exits| :: Tolerated(kind, exits[i])
  }

  /** The commands of a list that are run: all up to the first that does not exit 0, and that one. */
  function RanOf(outcomes: seq<Exit>): seq<Exit> {
    if outcomes == [] then []
    else if outcomes[0] != Some(0) then [outcomes[0]]
    else [outcomes[0]] + RanOf(outcomes[1..])
  }

  lemma {:induction false} RanOfStops(outcomes: seq<Exit>)
    ensures RanOf(outcomes) <= outcomes
    ensures forall i | 0 <= i < |RanOf(outcomes)| - 1 :: RanOf(outcomes)[i] == Some(0)
    ensures |RanOf(outcomes)| < |outcomes| ==>
              RanOf(outcomes) != [] && RanOf(outcomes)[|RanOf(outcomes)| - 1] != Some(0)
    decreases |outcomes|
  {
    if outcomes != [] {
      RanOfStops(outcomes[1..]);
      var ran, rest := RanOf(outcomes), RanOf(outcomes[1..]);
      if outcomes[0] == Some(0) {
        assert ran == [outcomes[0]] + rest;
        forall i | 0 <= i < |ran| - 1
          ensures ran[i] == Some(0)
        {
          assert i > 0 ==> ran[i] == rest[i - 1];
        }
      } else {
        assert ran == outcomes[..1];
      }
    }
  }

  /** What the world answers: the precondition check with the commands it ran itself, the exits of the
      commands it lists, and, for a merge, what GitHub then says. */
  datatype World = World(permitted: bool, checkExits: seq<Exit>, outcomes: seq<Exit>, viewExit: Exit, isMerged: bool)

  predicate Views(kind: Kind, exits: seq<Exit>) { kind == Merge && exits != [] && exits[|exits| - 1] == Some(0) }

  /** The receipt of an operation once its commands have run. */
  function Settled(request: Request, ran: seq<Exit>, viewExit: Exit, isMerged: bool): (receipt: Receipt)
    ensures receipt.status != Running && receipt.request == request
    ensures |ran| <= |receipt.exits| && receipt.exits[..|ran|] == ran
  {
    var viewed := Views(request.kind, ran);
    var exits := if viewed then ran + [viewExit] else ran;
    var merged := if viewed then Some(isMerged) else None;
    var failed := !AllTolerated(request.kind, exits);
    Receipt(request, if failed || merged == Some(false) then Failing else Completed, exits, merged,
            !failed && exits != [] && exits[|exits| - 1] == Some(NUDGE_UNCONFIRMED))
  }

  /** The receipt of an operation that was run, or was refused by its check. */
  function Outcome(request: Request, world: World): Receipt {
    if !world.permitted then Receipt(request, Refusing, world.checkExits, None, false)
    else Settled(request, world.checkExits + RanOf(world.outcomes), world.viewExit, world.isMerged)
  }

  /** A receipt says done only where every exit was tolerated and every listed command ran, or the last
      that ran is a nudge that went unconfirmed, and then the receipt notes it; a merge, only where GitHub
      itself then called the pull request merged. */
  lemma DoneMeansDone(request: Request, world: World)
    requires Outcome(request, world).status == Completed && world.outcomes != []
    ensures world.permitted
    ensures var receipt := Outcome(request, world);
            && AllTolerated(request.kind, receipt.exits) && receipt.exits != []
            && (world.checkExits + world.outcomes <= receipt.exits || receipt.unconfirmed)
            && (receipt.unconfirmed <==> receipt.exits[|receipt.exits| - 1] == Some(NUDGE_UNCONFIRMED))
            && (receipt.unconfirmed ==> request.kind == Answer || request.kind == Resume)
    ensures request.kind == Merge ==> Outcome(request, world).merged == Some(true) && world.isMerged
  {
    var ran := DoneHasRun(request, world);
    SettledMeans(request, world.checkExits, ran, world.viewExit, world.isMerged);
  }

  /** What a done operation ran: something, and everything it lists where the last of it succeeded. */
  lemma DoneHasRun(request: Request, world: World) returns (ran: seq<Exit>)
    requires Outcome(request, world).status == Completed && world.outcomes != []
    ensures world.permitted && ran == RanOf(world.outcomes) && ran != []
    ensures Outcome(request, world) == Settled(request, world.checkExits + ran, world.viewExit, world.isMerged)
    ensures ran[|ran| - 1] == Some(0) ==> ran == world.outcomes
  {
    ran := RanOf(world.outcomes);
    RanOfStops(world.outcomes);
  }

  /** A settled receipt that says done has all its exits tolerated; the last command that ran succeeded, or
      is the last exit of all and an unconfirmed nudge. */
  lemma SettledMeans(request: Request, checkExits: seq<Exit>, ran: seq<Exit>, viewExit: Exit, isMerged: bool)
    requires ran != [] && Settled(request, checkExits + ran, viewExit, isMerged).status == Completed
    ensures var receipt := Settled(request, checkExits + ran, viewExit, isMerged);
            && AllTolerated(request.kind, receipt.exits) && checkExits + ran <= receipt.exits
            && (ran[|ran| - 1] == Some(0) || receipt.unconfirmed)
            && (receipt.unconfirmed <==> receipt.exits[|receipt.exits| - 1] == Some(NUDGE_UNCONFIRMED))
            && (receipt.unconfirmed ==> request.kind == Answer || request.kind == Resume)
            && (request.kind == Merge ==> receipt.merged == Some(true) && isMerged)
  {
    var all, receipt := checkExits + ran, Settled(request, checkExits + ran, viewExit, isMerged);
    var last := all[|all| - 1];
    assert last == ran[|ran| - 1] && receipt.exits[|all| - 1] == last;
    assert Tolerated(request.kind, receipt.exits[|all| - 1]);
    assert Tolerated(request.kind, receipt.exits[|receipt.exits| - 1]);
  }

  // ---- the receipt, read off the world ------------------------------------------------------------------------

  /** The merge was looked at: it is one, and the last command that ran exited 0. */
  predicate LookedAt(request: Request, world: World, ran: seq<Exit>) {
    world.permitted && request.kind == Merge && ran != [] && ran[|ran| - 1] == Some(0)
  }

  /** Every exit is 0, or is the 3 of a nudge that an answer or a resume may end on. */
  predicate Clear(request: Request, exits: seq<Exit>) {
    forall i | 0 <= i < |exits| ::
      exits[i] == Some(0) || (exits[i] == Some(3) && (request.kind == Answer || request.kind == Resume))
  }

  /** What a receipt has to say: refused exactly where the check does not permit; else done exactly where all it
      ran ended well and a merge that was looked at is merged, and failed otherwise; and unconfirmed exactly
      where an answer or a resume ended well on a nudge. */
  predicate Reports(request: Request, world: World, receipt: Receipt) {
    var ran := world.checkExits + if world.permitted then RanOf(world.outcomes) else [];
    var viewed, nudge := LookedAt(request, world, ran), request.kind == Answer || request.kind == Resume;
    && receipt.request == request
    && receipt.exits == ran + (if viewed then [world.viewExit] else [])
    && receipt.merged == (if viewed then Some(world.isMerged) else None)
    && (receipt.status == Refusing <==> !world.permitted)
    && (receipt.status == Completed <==>
          world.permitted && Clear(request, receipt.exits) && (viewed ==> world.isMerged))
    && (receipt.status == Failing <==>
          world.permitted && (!Clear(request, receipt.exits) || (viewed && !world.isMerged)))
    && (receipt.unconfirmed <==>
          && world.permitted && nudge && Clear(request, receipt.exits)
          && receipt.exits != [] && receipt.exits[|receipt.exits| - 1] == Some(3))
  }

  lemma OutcomeReports(request: Request, world: World)
    ensures Reports(request, world, Outcome(request, world))
  {
    if world.permitted {
      var ran := world.checkExits + RanOf(world.outcomes);
      var exits := if Views(request.kind, ran) then ran + [world.viewExit] else ran;
      assert Outcome(request, world).exits == exits;
      assert AllTolerated(request.kind, exits) <==> Clear(request, exits);
      if exits != [] && exits[|exits| - 1] == Some(3) && AllTolerated(request.kind, exits) {
        assert Tolerated(request.kind, exits[|exits| - 1]);
      }
    } else {
      assert world.checkExits + [] == world.checkExits;
    }
  }

  /** The outcome is the one receipt that reports what happened. */
  lemma OutcomeIsExact(request: Request, world: World, receipt: Receipt)
    requires receipt.status != Running
    ensures Reports(request, world, receipt) <==> receipt == Outcome(request, world)
  {
    OutcomeReports(request, world);
  }

  predicate AllZero(exits: seq<Exit>) { forall i | 0 <= i < |exits| :: exits[i] == Some(0) }

  lemma RanAllZero(outcomes: seq<Exit>)
    ensures AllZero(RanOf(outcomes)) <==> AllZero(outcomes)
  {
    RanOfStops(outcomes);
    if AllZero(outcomes) { AllRan(outcomes); }
  }

  lemma ClearParts(request: Request, checkExits: seq<Exit>, ran: seq<Exit>)
    requires request.kind != Answer && request.kind != Resume
    ensures Clear(request, checkExits + ran) <==> AllZero(checkExits) && AllZero(ran)
  {
    var exits := checkExits + ran;
    assert forall i | 0 <= i < |checkExits| :: exits[i] == checkExits[i];
    assert forall i | 0 <= i < |ran| :: exits[|checkExits| + i] == ran[i];
  }

  /** But for merges and nudges, done is being permitted and every command exiting 0. */
  lemma DoneIffAllExitZero(request: Request, world: World)
    requires request.kind == Close || request.kind == Abandon || request.kind == Launch
    ensures Outcome(request, world).status == Completed <==>
            && world.permitted
            && (forall i | 0 <= i < |world.checkExits| :: world.checkExits[i] == Some(0))
            && (forall i | 0 <= i < |world.outcomes| :: world.outcomes[i] == Some(0))
  {
    OutcomeReports(request, world);
    RanAllZero(world.outcomes);
    if world.permitted {
      ClearParts(request, world.checkExits, RanOf(world.outcomes));
      assert Outcome(request, world).exits == world.checkExits + RanOf(world.outcomes);
    }
  }

  datatype Reply = Ran(receipt: Receipt) | Replayed(receipt: Receipt) | ReusedId

  /** The answer to a call, and the receipts it leaves: a taken id is replayed or refused, with nothing
      changed, and a free one is bound to its outcome. */
  function Told(receipts: map<string, Receipt>, id: string, request: Request, world: World): Reply {
    if id !in receipts then Ran(Outcome(request, world))
    else if receipts[id].request == request then Replayed(receipts[id])
    else ReusedId
  }

  function Kept(receipts: map<string, Receipt>, id: string, request: Request, world: World): map<string, Receipt> {
    if id in receipts then receipts else receipts[id := Outcome(request, world)]
  }

  /** The service over its receipts directory. */
  class OperationService {
    var receipts: map<string, Receipt>

    constructor ()
      ensures receipts == map[]
    {
      receipts := map[];
    }

    /** The command loop of one operation. */
    method RunCommands(outcomes: seq<Exit>) returns (ran: seq<Exit>)
      ensures ran == RanOf(outcomes)
    {
      ran := [];
      var i := 0;
      while i < |outcomes|
        invariant 0 <= i <= |outcomes| && ran == outcomes[..i]
        invariant forall k | 0 <= k < i :: outcomes[k] == Some(0)
      {
        ran := ran + [outcomes[i]];
        if outcomes[i] != Some(0) {
          StopsHere(outcomes, i);
          return;
        }
        i := i + 1;
      }
      assert outcomes[..i] == outcomes;
      AllRan(outcomes);
    }

    /** What the service makes of the commands that ran: the look at a merge, then the outcome. */
    method Conclude(request: Request, ran: seq<Exit>, world: World) returns (receipt: Receipt)
      ensures receipt == Settled(request, ran, world.viewExit, world.isMerged)
    {
      receipt := Receipt(request, Running, ran, None, false);
      if Views(request.kind, receipt.exits) {
        receipt := receipt.(exits := receipt.exits + [world.viewExit], merged := Some(world.isMerged));
      }
      var failed := !AllTolerated(request.kind, receipt.exits);
      if !failed && receipt.exits != [] && receipt.exits[|receipt.exits| - 1] == Some(NUDGE_UNCONFIRMED) {
        receipt := receipt.(unconfirmed := true);
      }
      receipt := receipt.(status := if failed then Failing else Completed);
      if !failed && receipt.merged == Some(false) {
        receipt := receipt.(status := Failing);
      }
    }

    /** One call: replay the id's receipt if it has one, else take the id, run, and write the outcome. */
    method Execute(id: string, request: Request, world: World) returns (reply: Reply)
      modifies this
      ensures receipts == Kept(old(receipts), id, request, world)
      ensures reply == Told(old(receipts), id, request, world)
      ensures id !in old(receipts) ==>
                reply.Ran? && Reports(request, world, reply.receipt)
                && receipts == old(receipts)[id := reply.receipt]
      ensures id in old(receipts) ==>
                receipts == old(receipts)
                && (if old(receipts)[id].request == request then reply == Replayed(old(receipts)[id])
                    else reply == ReusedId)
    {
      OutcomeReports(request, world);
      if id in receipts {
        var previous := receipts[id];
        if previous.request != request {
          return ReusedId;
        }
        return Replayed(previous);
      }
      var receipt := Receipt(request, Running, [], None, false);
      receipts := receipts[id := receipt];
      receipt := receipt.(exits := world.checkExits);
      if !world.permitted {
        receipt := receipt.(status := Refusing);
      } else {
        var ran := RunCommands(world.outcomes);
        receipt := Conclude(request, receipt.exits + ran, world);
      }
      receipts := receipts[id := receipt];
      reply := Ran(receipt);
    }
  }

  lemma StopsHere(outcomes: seq<Exit>, i: nat)
    requires i < |outcomes| && outcomes[i] != Some(0) && forall k | 0 <= k < i :: outcomes[k] == Some(0)
    ensures RanOf(outcomes) == outcomes[..i] + [outcomes[i]]
  {
    if i > 0 {
      StopsHere(outcomes[1..], i - 1);
      assert outcomes[..i] == [outcomes[0]] + outcomes[1..][..i - 1];
    }
  }

  lemma AllRan(outcomes: seq<Exit>)
    requires forall k | 0 <= k < |outcomes| :: outcomes[k] == Some(0)
    ensures RanOf(outcomes) == outcomes
  {
    if outcomes != [] {
      AllRan(outcomes[1..]);
    }
  }
}
