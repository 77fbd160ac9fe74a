/** Call accounting: observed calls are placed in legs, paired with receipts, totalled leg by leg and rolled
    up over a record. What the roll-up calls complete really does account for every call. */
module Accounting {
  import opened Wrappers
  import opened Recorder
  import opened Collections

  datatype Window = Window(cell: string, leg: string, started: int, finished: int)
  datatype Leg = Leg(cell: string, name: string)

  /** Everything a leg is totalled by. A totals block maps the keys that hold a number. */
  datatype Key = Cost | Prompt | Completion | Reasoning | Cached | Observed | WithReceipt | Missing | Without
  type Totals = map<Key, int>

  const FIELDS: seq<Key> := [Cost, Prompt, Completion, Reasoning, Cached]
  const KEYS: seq<Key> := FIELDS + [Observed, WithReceipt, Missing, Without]

  /** One observed call and what is known of it: a status that may not be a number, and a receipt. */
  datatype Row = Row(call: ObservedCall, status: Option<int>, receipt: Option<Totals>)

  // ---------------------------------------------------------------- attribution

  predicate Within(w: Window, c: ObservedCall) { w.started <= c.startedUtc <= w.finished }

  function Place(c: ObservedCall, windows: seq<Window>): Option<Leg> {
    if windows == [] then None
    else if Within(windows[0], c) then Some(Leg(windows[0].cell, windows[0].leg))
    else Place(c, windows[1..])
  }

  /** Window `i` is the first whose start and finish, both included, the start of the call lies between. */
  predicate FirstHolds(c: ObservedCall, windows: seq<Window>, i: int) {
    && 0 <= i < |windows| && windows[i].started <= c.startedUtc <= windows[i].finished
    && forall j :: 0 <= j < i ==> !(windows[j].started <= c.startedUtc <= windows[j].finished)
  }

  /** A call is placed exactly when its start lies in some window, both ends included, and then in the leg of
      the first such window. */
  lemma {:induction false} PlaceIsFirstWindow(c: ObservedCall, windows: seq<Window>)
    ensures Place(c, windows).None?
            <==> forall i :: 0 <= i < |windows| ==> !(windows[i].started <= c.startedUtc <= windows[i].finished)
    ensures Place(c, windows).Some? ==> exists i :: FirstHolds(c, windows, i)
    ensures forall i :: FirstHolds(c, windows, i) ==> Place(c, windows) == Some(Leg(windows[i].cell, windows[i].leg))
  {
    if windows != [] && Within(windows[0], c) {
      assert FirstHolds(c, windows, 0);
    } else if windows != [] {
      var rest := windows[1..];
      PlaceIsFirstWindow(c, rest);
      assert forall i :: 0 < i < |windows| ==> windows[i] == rest[i - 1];
      if Place(c, windows).Some? {
        var i :| FirstHolds(c, rest, i);
        assert FirstHolds(c, windows, i + 1);
      }
      forall i | FirstHolds(c, windows, i)
        ensures Place(c, windows) == Some(Leg(windows[i].cell, windows[i].leg))
      {
        assert i > 0;
        assert FirstHolds(c, rest, i - 1);
      }
    }
  }

  /** The call's first window is one of this leg's. */
  ghost predicate FallsIn(c: ObservedCall, windows: seq<Window>, l: Leg) {
    exists i :: FirstHolds(c, windows, i) && windows[i].cell == l.cell && windows[i].leg == l.name
  }

  predicate InNone(c: ObservedCall, windows: seq<Window>) {
    forall i :: 0 <= i < |windows| ==> !(windows[i].started <= c.startedUtc <= windows[i].finished)
  }

  lemma PlaceSays(c: ObservedCall, windows: seq<Window>, l: Leg)
    ensures FallsIn(c, windows, l) <==> Place(c, windows) == Some(l)
    ensures InNone(c, windows) <==> Place(c, windows).None?
  {
    PlaceIsFirstWindow(c, windows);
    if Place(c, windows) == Some(l) {
      var i :| FirstHolds(c, windows, i);
      assert windows[i].cell == l.cell && windows[i].leg == l.name;
    }
  }

  /** The calls placed in one leg, or, for `None`, in no leg at all. */
  function Placed(calls: seq<ObservedCall>, windows: seq<Window>, there: Option<Leg>): seq<ObservedCall> {
    if calls == [] then []
    else
      var n := |calls| - 1;
      Placed(calls[..n], windows, there) + (if Place(calls[n], windows) == there then [calls[n]] else [])
  }

  /** Calls keep their order: what is placed of a longer list is what is placed of its front, then of the rest. */
  lemma {:induction false} PlacedConcat(a: seq<ObservedCall>, b: seq<ObservedCall>, windows: seq<Window>,
                                        there: Option<Leg>)
    ensures Placed(a + b, windows, there) == Placed(a, windows, there) + Placed(b, windows, there)
    decreases |b|
  {
    if b == [] {
      assert a + b == a;
    } else {
      var n := |b| - 1;
      assert (a + b)[..|a + b| - 1] == a + b[..n];
      PlacedConcat(a, b[..n], windows, there);
    }
  }

  /** A call turns up among the placed as often as it was observed, or not at all. */
  lemma {:induction false} PlacedCounts(calls: seq<ObservedCall>, windows: seq<Window>, there: Option<Leg>,
                                        c: ObservedCall)
    ensures multiset(Placed(calls, windows, there))[c]
            == if Place(c, windows) == there then multiset(calls)[c] else 0
  {
    if calls != [] {
      var n := |calls| - 1;
      PlacedCounts(calls[..n], windows, there, c);
      assert calls == calls[..n] + [calls[n]];
    }
  }

  /** The calls of a leg are those whose first window is the leg's, and the leftovers those in no window. */
  lemma PlacedIsFirstWindow(calls: seq<ObservedCall>, windows: seq<Window>, l: Leg, c: ObservedCall)
    ensures multiset(Placed(calls, windows, Some(l)))[c] == if FallsIn(c, windows, l) then multiset(calls)[c] else 0
    ensures multiset(Placed(calls, windows, None))[c] == if InNone(c, windows) then multiset(calls)[c] else 0
  {
    PlacedCounts(calls, windows, Some(l), c);
    PlacedCounts(calls, windows, None, c);
    PlaceSays(c, windows, l);
  }

  /** Every call is in the leg of its first window, or, where it has none, left over. */
  ghost predicate Attributed(calls: seq<ObservedCall>, windows: seq<Window>, byLeg: map<Leg, seq<ObservedCall>>,
                             unattributed: seq<ObservedCall>)
  {
    && (forall l :: l in byLeg ==> forall c :: c in byLeg[l] <==> c in calls && FallsIn(c, windows, l))
    && (forall c, l :: c in calls && FallsIn(c, windows, l) ==> l in byLeg)
    && (forall c :: c in unattributed <==> c in calls && InNone(c, windows))
  }

  lemma PlacedAre(calls: seq<ObservedCall>, windows: seq<Window>, l: Leg, c: ObservedCall)
    ensures c in Placed(calls, windows, Some(l)) <==> c in calls && FallsIn(c, windows, l)
    ensures c in Placed(calls, windows, None) <==> c in calls && InNone(c, windows)
  {
    PlacedIsFirstWindow(calls, windows, l, c);
    assert c in Placed(calls, windows, Some(l)) <==> c in multiset(Placed(calls, windows, Some(l)));
    assert c in Placed(calls, windows, None) <==> c in multiset(Placed(calls, windows, None));
    assert c in calls <==> c in multiset(calls);
  }

  lemma PlacedIsAttributed(calls: seq<ObservedCall>, windows: seq<Window>, byLeg: map<Leg, seq<ObservedCall>>)
    requires forall l :: l in byLeg <==> Placed(calls, windows, Some(l)) != []
    requires forall l :: l in byLeg ==> byLeg[l] == Placed(calls, windows, Some(l))
    ensures Attributed(calls, windows, byLeg, Placed(calls, windows, None))
  {
    forall l, c | l in byLeg
      ensures c in byLeg[l] <==> c in calls && FallsIn(c, windows, l)
    {
      PlacedAre(calls, windows, l, c);
    }
    forall c, l | c in calls && FallsIn(c, windows, l)
      ensures l in byLeg
    {
      PlacedAre(calls, windows, l, c);
    }
    forall c
      ensures c in Placed(calls, windows, None) <==> c in calls && InNone(c, windows)
    {
      PlacedAre(calls, windows, Leg("", ""), c);
    }
  }

  /** The inner loop: the first window that holds the call. */
  method FindLeg(call: ObservedCall, windows: seq<Window>) returns (leg: Option<Leg>)
    ensures leg == Place(call, windows)
  {
    assert windows[0..] == windows;
    for i := 0 to |windows|
      invariant Place(call, windows) == Place(call, windows[i..])
    {
      if Within(windows[i], call) {
        return Some(Leg(windows[i].cell, windows[i].leg));
      }
      assert windows[i..][1..] == windows[i + 1..];
    }
    leg := None;
  }

  /** Fill the legs call by call, and keep the leftovers. */
  method Attribute(calls: seq<ObservedCall>, windows: seq<Window>)
    returns (byLeg: map<Leg, seq<ObservedCall>>, unattributed: seq<ObservedCall>)
    ensures unattributed == Placed(calls, windows, None)
    ensures forall l :: l in byLeg <==> Placed(calls, windows, Some(l)) != []
    ensures forall l :: l in byLeg ==> byLeg[l] == Placed(calls, windows, Some(l))
    ensures Attributed(calls, windows, byLeg, unattributed)
  {
    byLeg, unattributed := map[], [];
    for n := 0 to |calls|
      invariant unattributed == Placed(calls[..n], windows, None)
      invariant forall l :: l in byLeg <==> Placed(calls[..n], windows, Some(l)) != []
      invariant forall l :: l in byLeg ==> byLeg[l] == Placed(calls[..n], windows, Some(l))
    {
      var leg := FindLeg(calls[n], windows);
      assert calls[..n + 1][..n] == calls[..n] && calls[..n + 1][n] == calls[n];
      if leg.Some? {
        var before := if leg.value in byLeg then byLeg[leg.value] else [];
        byLeg := byLeg[leg.value := before + [calls[n]]];
      } else {
        unattributed := unattributed + [calls[n]];
      }
    }
    assert calls[..|calls|] == calls;
    PlacedIsAttributed(calls, windows, byLeg);
  }

  function Total(calls: seq<ObservedCall>, weight: ObservedCall -> int): int {
    if calls == [] then 0 else Total(calls[..|calls| - 1], weight) + weight(calls[|calls| - 1])
  }

  function TotalOver(calls: seq<ObservedCall>, windows: seq<Window>, legs: seq<Leg>,
                     weight: ObservedCall -> int): int
  {
    if legs == [] then 0
    else TotalOver(calls, windows, legs[..|legs| - 1], weight)
         + LegTotal(calls, windows, Some(legs[|legs| - 1]), weight)
  }

  function LegTotal(calls: seq<ObservedCall>, windows: seq<Window>, there: Option<Leg>,
                    weight: ObservedCall -> int): int
  {
    Total(Placed(calls, windows, there), weight)
  }

  predicate Distinct(legs: seq<Leg>) { forall i, j :: 0 <= i < j < |legs| ==> legs[i] != legs[j] }

  predicate Covers(legs: seq<Leg>, calls: seq<ObservedCall>, windows: seq<Window>) {
    forall i :: 0 <= i < |calls| ==> Place(calls[i], windows).Some? ==> Place(calls[i], windows).value in legs
  }

  lemma {:induction false} TotalAppend(calls: seq<ObservedCall>, c: ObservedCall, weight: ObservedCall -> int)
    ensures Total(calls + [c], weight) == Total(calls, weight) + weight(c)
  {
    assert (calls + [c])[..|calls|] == calls;
  }

  /** A further call adds its weight to the leg it is placed in, and to no other. */
  lemma OneMoreIn(calls: seq<ObservedCall>, windows: seq<Window>, there: Option<Leg>, weight: ObservedCall -> int)
    requires calls != []
    ensures var c, rest := calls[|calls| - 1], calls[..|calls| - 1];
            LegTotal(calls, windows, there, weight)
            == LegTotal(rest, windows, there, weight) + (if Place(c, windows) == there then weight(c) else 0)
  {
    var c, before := calls[|calls| - 1], Placed(calls[..|calls| - 1], windows, there);
    TotalAppend(before, c, weight);
    assert before + [] == before;
  }

  lemma LastIsNew(legs: seq<Leg>)
    requires legs != [] && Distinct(legs)
    ensures var last, others := legs[|legs| - 1], legs[..|legs| - 1];
            last !in others && forall l :: l in legs <==> l in others || l == last
  {
    assert legs == legs[..|legs| - 1] + [legs[|legs| - 1]];
  }

  lemma {:induction false} OneMoreCall(calls: seq<ObservedCall>, windows: seq<Window>, legs: seq<Leg>,
                                       weight: ObservedCall -> int)
    requires calls != [] && Distinct(legs)
    ensures var c, rest := calls[|calls| - 1], calls[..|calls| - 1];
            TotalOver(calls, windows, legs, weight)
            == TotalOver(rest, windows, legs, weight)
               + (if Place(c, windows).Some? && Place(c, windows).value in legs then weight(c) else 0)
  {
    if legs != [] {
      var last, others := legs[|legs| - 1], legs[..|legs| - 1];
      OneMoreCall(calls, windows, others, weight);
      OneMoreIn(calls, windows, Some(last), weight);
      LastIsNew(legs);
    }
  }

  /** Attribution conserves calls, whatever they are weighed by: what the legs hold and what is left over
      add up to what was observed. */
  lemma {:induction false} CallsAreConserved(calls: seq<ObservedCall>, windows: seq<Window>, legs: seq<Leg>,
                                             weight: ObservedCall -> int)
    requires Distinct(legs) && Covers(legs, calls, windows)
    ensures Total(Placed(calls, windows, None), weight) + TotalOver(calls, windows, legs, weight)
            == Total(calls, weight)
  {
    if calls == [] {
      NothingToTotal(windows, legs, weight);
    } else {
      var c, rest := calls[|calls| - 1], calls[..|calls| - 1];
      assert Covers(legs, rest, windows);
      CallsAreConserved(rest, windows, legs, weight);
      OneMoreCall(calls, windows, legs, weight);
      OneMoreIn(calls, windows, None, weight);
    }
  }

  lemma {:induction false} NothingToTotal(windows: seq<Window>, legs: seq<Leg>, weight: ObservedCall -> int)
    ensures TotalOver([], windows, legs, weight) == 0
  {
    if legs != [] { NothingToTotal(windows, legs[..|legs| - 1], weight); }
  }

  // ---------------------------------------------------------------- coverage and totals

  predicate Receipted(r: Row) { r.receipt.Some? }

  predicate Unreceipted(r: Row) { r.receipt.None? }

  /** Only a status known to be outside 2xx excuses a call. */
  predicate Answered(r: Row) { r.status.None? || 200 <= r.status.value < 300 }

  predicate Refused(r: Row) { !Answered(r) }

  function Gaps(rows: seq<Row>): seq<Row> { Keep(Keep(rows, Unreceipted), Answered) }

  function Excused(rows: seq<Row>): seq<Row> { Keep(Keep(rows, Unreceipted), Refused) }

  function Coverage(rows: seq<Row>): Totals {
    map[Observed := |rows|, WithReceipt := |Keep(rows, Receipted)|, Missing := |Gaps(rows)|,
        Without := |Excused(rows)|]
  }

  /** Coverage is a three-way partition of the rows, and its counts add up. */
  lemma CoverageIsAPartition(rows: seq<Row>)
    ensures multiset(Keep(rows, Receipted)) + multiset(Gaps(rows)) + multiset(Excused(rows)) == multiset(rows)
    ensures var c := Coverage(rows); c[Observed] == c[WithReceipt] + c[Missing] + c[Without]
  {
    var rest := Keep(rows, Unreceipted);
    KeepSplits(rows, Receipted, Unreceipted);
    KeepSplits(rest, Answered, Refused);
    Regroup(multiset(Keep(rows, Receipted)), multiset(Keep(rest, Answered)), multiset(Keep(rest, Refused)),
            multiset(rest));
  }

  lemma Regroup(a: multiset<Row>, b: multiset<Row>, c: multiset<Row>, rest: multiset<Row>)
    requires b + c == rest
    ensures a + b + c == a + rest
  {
  }

  /** Answered, as far as is known, and without a receipt. */
  predicate AnsweredBare(r: Row) { r.receipt.None? && (r.status.None? || 200 <= r.status.value < 300) }

  /** Known to have been refused, and without a receipt. */
  predicate RefusedBare(r: Row) {
    r.receipt.None? && r.status.Some? && (r.status.value < 200 || r.status.value >= 300)
  }

  /** Every count of a leg, read off its rows. */
  lemma CoverageCounts(rows: seq<Row>)
    ensures Observed in Coverage(rows) && Coverage(rows)[Observed] == |rows|
    ensures WithReceipt in Coverage(rows)
            && Coverage(rows)[WithReceipt] == |set i | 0 <= i < |rows| && rows[i].receipt.Some?|
    ensures Missing in Coverage(rows)
            && Coverage(rows)[Missing] == |set i | 0 <= i < |rows| && AnsweredBare(rows[i])|
    ensures Without in Coverage(rows)
            && Coverage(rows)[Without] == |set i | 0 <= i < |rows| && RefusedBare(rows[i])|
  {
    KeepIsWhere(rows, Receipted);
    KeepTwice(rows, Unreceipted, Answered, AnsweredBare);
    KeepTwice(rows, Unreceipted, Refused, RefusedBare);
    KeepIsWhere(rows, AnsweredBare);
    KeepIsWhere(rows, RefusedBare);
    assert Where(rows, Receipted) == set i | 0 <= i < |rows| && rows[i].receipt.Some?;
    assert Where(rows, AnsweredBare) == set i | 0 <= i < |rows| && AnsweredBare(rows[i]);
    assert Where(rows, RefusedBare) == set i | 0 <= i < |rows| && RefusedBare(rows[i]);
  }

  /** The row shows the status the recorder filed for what the wire saw, where it shows one at all. */
  predicate Shows(r: Row, wire: Wire) { r.status.Some? ==> r.status.value == StatusOf(wire) }

  /** What is documented as a gap: no receipt, and no answer known to be a refusal. */
  predicate IsGap(r: Row, wire: Wire) { Unreceipted(r) && (wire.NoAnswer? || 200 <= wire.code < 300 || r.status.None?) }

  predicate Witnessed(rows: seq<Row>, wires: seq<Wire>) {
    |wires| == |rows| && forall i :: 0 <= i < |rows| ==> Shows(rows[i], wires[i]) && HttpAnswer(wires[i])
  }

  predicate ReportsGaps(rows: seq<Row>, wires: seq<Wire>)
    requires |wires| == |rows|
  {
    forall i :: 0 <= i < |rows| && IsGap(rows[i], wires[i]) ==> rows[i] in Gaps(rows)
  }

  /** Coverage reports every gap exactly when no call without a receipt shows the status 0. The recorder
      files that status, a number outside 2xx, for a call that was never answered, and such a call is then
      excused as refused. */
  lemma GapsAreAllReportedIff(rows: seq<Row>, wires: seq<Wire>)
    requires Witnessed(rows, wires)
    ensures ReportsGaps(rows, wires)
            <==> forall i :: 0 <= i < |rows| && Unreceipted(rows[i]) ==> rows[i].status != Some(0)
  {
    forall i | 0 <= i < |rows|
      ensures rows[i] in Gaps(rows) <==> Unreceipted(rows[i]) && Answered(rows[i])
      ensures IsGap(rows[i], wires[i]) && !Answered(rows[i]) <==> Unreceipted(rows[i]) && rows[i].status == Some(0)
    {
      KeepIsExact(rows, Unreceipted, rows[i]);
      KeepIsExact(Keep(rows, Unreceipted), Answered, rows[i]);
      assert Shows(rows[i], wires[i]) && HttpAnswer(wires[i]);
    }
  }

  function Present(rows: seq<Row>, k: Key): seq<int> {
    if rows == [] then []
    else
      var n := |rows| - 1;
      Present(rows[..n], k)
      + (if Receipted(rows[n]) && k in rows[n].receipt.value then [rows[n].receipt.value[k]] else [])
  }

  function Sum(values: seq<int>): int {
    if values == [] then 0 else Sum(values[..|values| - 1]) + values[|values| - 1]
  }

  /** All or nothing: a sum is stated only when there is a receipt and every receipt carried the field. */
  function FieldSums(receipted: seq<Row>): (sums: Totals)
    ensures forall k :: k in sums ==> k in FIELDS
  {
    map k | k in FIELDS && receipted != [] && |Present(receipted, k)| == |receipted| :: Sum(Present(receipted, k))
  }

  function Recount(rows: seq<Row>): Totals { Coverage(rows) + FieldSums(Keep(rows, Receipted)) }

  /** The receipted value of a field over rows, each row counted once. */
  function Known(rows: seq<Row>, k: Key): int {
    if rows == [] then 0 else Known(rows[..|rows| - 1], k) + Value(rows[|rows| - 1], k)
  }

  function Value(r: Row, k: Key): int {
    if Receipted(r) && k in r.receipt.value then r.receipt.value[k] else 0
  }

  predicate Carries(r: Row, k: Key) { Receipted(r) ==> k in r.receipt.value }

  lemma {:induction false} PresentSkipsTheRest(rows: seq<Row>, k: Key)
    ensures Present(Keep(rows, Receipted), k) == Present(rows, k)
  {
    if rows != [] {
      var n := |rows| - 1;
      PresentSkipsTheRest(rows[..n], k);
      var kept := Keep(rows[..n], Receipted);
      if Receipted(rows[n]) {
        assert (kept + [rows[n]])[..|kept|] == kept;
      } else {
        assert Keep(rows, Receipted) == kept;
      }
    }
  }

  lemma {:induction false} PresentIsKnown(rows: seq<Row>, k: Key)
    ensures Sum(Present(rows, k)) == Known(rows, k)
  {
    if rows != [] {
      var n := |rows| - 1;
      PresentIsKnown(rows[..n], k);
      var values := Present(rows[..n], k);
      assert forall v :: (values + [v])[..|values|] == values;
      assert values + [] == values;
    }
  }

  lemma {:induction false} PresentIsFull(rows: seq<Row>, k: Key)
    ensures |Present(rows, k)| <= |Keep(rows, Receipted)|
    ensures |Present(rows, k)| == |Keep(rows, Receipted)|
            <==> forall i :: 0 <= i < |rows| ==> Carries(rows[i], k)
  {
    if rows != [] {
      PresentIsFull(rows[..|rows| - 1], k);
    }
  }

  /** A field is totalled exactly when some call has a receipt and every receipt has the field, and the total
      is then the field's value over all rows. */
  lemma TotalsAreAllOrNothing(rows: seq<Row>, k: Key)
    requires k in FIELDS
    ensures k in Recount(rows)
            <==> (exists i :: 0 <= i < |rows| && Receipted(rows[i]))
                 && forall i :: 0 <= i < |rows| ==> Carries(rows[i], k)
    ensures k in Recount(rows) ==> Recount(rows)[k] == Known(rows, k)
  {
    PresentSkipsTheRest(rows, k);
    PresentIsKnown(rows, k);
    PresentIsFull(rows, k);
    SomeReceipt(rows);
    RecountField(rows, k);
  }

  lemma RecountField(rows: seq<Row>, k: Key)
    requires k in FIELDS
    ensures var receipted := Keep(rows, Receipted);
            && (k in Recount(rows) <==> receipted != [] && |Present(receipted, k)| == |receipted|)
            && (k in Recount(rows) ==> Recount(rows)[k] == Sum(Present(receipted, k)))
  {
  }

  lemma SomeReceipt(rows: seq<Row>)
    ensures Keep(rows, Receipted) != [] <==> exists i :: 0 <= i < |rows| && Receipted(rows[i])
  {
    var receipted := Keep(rows, Receipted);
    if receipted != [] {
      KeepIsExact(rows, Receipted, receipted[0]);
    }
    if i :| 0 <= i < |rows| && Receipted(rows[i]) {
      KeepIsExact(rows, Receipted, rows[i]);
    }
  }

  predicate HasId(c: ObservedCall) { c.generationId.Some? && c.generationId.value != "" }

  /** What the gateway says of a call, if it is asked in time. */
  function RowOf(c: ObservedCall, late: bool, fetched: Option<Totals>): Row {
    Row(c, Some(c.status), if HasId(c) && !late then fetched else None)
  }

  /** Pair every call with its receipt. `late` says, call by call, whether the time budget had run out. */
  method Reconcile(calls: seq<ObservedCall>, late: seq<bool>, fetch: ObservedCall -> Option<Totals>)
    returns (rows: seq<Row>, totals: Totals)
    requires |late| == |calls|
    ensures |rows| == |calls| && totals == Recount(rows)
    ensures forall i :: 0 <= i < |calls| ==> rows[i] == RowOf(calls[i], late[i], fetch(calls[i]))
    ensures forall i :: 0 <= i < |calls| ==>
              && rows[i].call == calls[i] && rows[i].status == Some(calls[i].status)
              && rows[i].receipt == (if late[i] || calls[i].generationId in {None, Some("")} then None
                                     else fetch(calls[i]))
  {
    rows := [];
    for i := 0 to |calls|
      invariant |rows| == i
      invariant forall j :: 0 <= j < i ==> rows[j] == RowOf(calls[j], late[j], fetch(calls[j]))
    {
      var receipt: Option<Totals> := None;
      if HasId(calls[i]) {
        if !late[i] {
          receipt := fetch(calls[i]);
        }
      }
      rows := rows + [Row(calls[i], Some(calls[i].status), receipt)];
    }
    totals := Recount(rows);
  }

  // ---------------------------------------------------------------- the roll-up

  /** A receipts file of one leg. One whose totals are absent reads as an empty totals block. */
  datatype LegFile = Unreadable | Readable(rows: seq<Row>, totals: Totals)
  datatype Cell = Cell(name: string, files: seq<LegFile>)

  predicate NonZero(t: Totals, k: Key) { k in t && t[k] != 0 }

  function Counted(f: LegFile, k: Key): int { if f.Readable? && k in f.totals then f.totals[k] else 0 }

  function SumOf(files: seq<LegFile>, k: Key): int {
    if files == [] then 0 else SumOf(files[..|files| - 1], k) + Counted(files[|files| - 1], k)
  }

  function Files(cells: seq<Cell>): seq<LegFile> {
    if cells == [] then [] else Files(cells[..|cells| - 1]) + cells[|cells| - 1].files
  }

  function Bare(cells: seq<Cell>): seq<string> {
    if cells == [] then []
    else
      var n := |cells| - 1;
      Bare(cells[..n]) + (if cells[n].files == [] then [cells[n].name] else [])
  }

  predicate Sums(t: Totals, k: Key) { NonZero(t, WithReceipt) ==> k in t }

  predicate Accounted(f: LegFile) {
    f.Readable? && (forall k :: k in KEYS ==> Sums(f.totals, k)) && !NonZero(f.totals, Missing)
  }

  predicate AllAccounted(files: seq<LegFile>) { forall i :: 0 <= i < |files| ==> Accounted(files[i]) }

  lemma KeysAreAll()
    ensures forall k: Key :: k in KEYS
  {
    forall k: Key
      ensures k in KEYS
    {
      match k {
        case Cost => assert KEYS[0] == k;
        case Prompt => assert KEYS[1] == k;
        case Completion => assert KEYS[2] == k;
        case Reasoning => assert KEYS[3] == k;
        case Cached => assert KEYS[4] == k;
        case Observed => assert KEYS[5] == k;
        case WithReceipt => assert KEYS[6] == k;
        case Missing => assert KEYS[7] == k;
        case Without => assert KEYS[8] == k;
      }
    }
  }

  ghost predicate Tally(totals: Totals, files: seq<LegFile>) {
    forall k: Key :: k in totals && totals[k] == SumOf(files, k)
  }

  /** Add one leg into the running totals. */
  method AddLeg(totals: Totals, leg: Totals) returns (sums: Totals, floor: bool)
    requires forall k :: k in KEYS ==> k in totals
    ensures forall k :: k in KEYS ==> k in sums && sums[k] == totals[k] + (if k in leg then leg[k] else 0)
    ensures floor <==> exists k :: k in KEYS && !Sums(leg, k)
  {
    sums, floor := totals, false;
    for i := 0 to |KEYS|
      invariant forall k :: k in KEYS ==> k in sums
      invariant forall j :: 0 <= j < i ==>
                  sums[KEYS[j]] == totals[KEYS[j]] + (if KEYS[j] in leg then leg[KEYS[j]] else 0)
      invariant forall j :: i <= j < |KEYS| ==> sums[KEYS[j]] == totals[KEYS[j]]
      invariant floor <==> exists j :: 0 <= j < i && !Sums(leg, KEYS[j])
    {
      var key := KEYS[i];
      if key in leg {
        sums := sums[key := sums[key] + leg[key]];
      } else if NonZero(leg, WithReceipt) {
        floor := true;
      }
    }
  }

  lemma OneMoreFile(totals: Totals, files: seq<LegFile>, f: LegFile, sums: Totals)
    requires Tally(totals, files)
    requires forall k :: k in KEYS ==> k in sums && sums[k] == totals[k] + Counted(f, k)
    ensures Tally(sums, files + [f])
  {
    KeysAreAll();
    assert (files + [f])[..|files|] == files;
  }

  lemma OneMoreAccounted(files: seq<LegFile>, f: LegFile)
    ensures AllAccounted(files + [f]) <==> AllAccounted(files) && Accounted(f)
  {
    var more := files + [f];
    assert more[|files|] == f && forall i :: 0 <= i < |files| ==> more[i] == files[i];
  }

  /** One file of a cell. */
  method AddFile(totals: Totals, complete: bool, f: LegFile, ghost before: seq<LegFile>)
    returns (sums: Totals, still: bool)
    requires Tally(totals, before)
    ensures Tally(sums, before + [f]) && (still <==> complete && Accounted(f))
  {
    if f.Unreadable? {
      OneMoreFile(totals, before, f, totals);
      return totals, false;
    }
    var floor;
    sums, floor := AddLeg(totals, f.totals);
    OneMoreFile(totals, before, f, sums);
    still := complete;
    if floor {
      still := false;
    }
    if NonZero(f.totals, Missing) {
      still := false;
    }
  }

  /** The files of one cell. */
  method AddCell(totals: Totals, complete: bool, files: seq<LegFile>, ghost before: seq<LegFile>)
    returns (sums: Totals, still: bool)
    requires Tally(totals, before) && (complete <==> AllAccounted(before))
    ensures Tally(sums, before + files) && (still <==> AllAccounted(before + files))
  {
    sums, still := totals, complete;
    assert before + files[..0] == before;
    for i := 0 to |files|
      invariant Tally(sums, before + files[..i])
      invariant still <==> AllAccounted(before + files[..i])
    {
      ghost var sofar := before + files[..i];
      assert before + files[..i + 1] == sofar + [files[i]];
      OneMoreAccounted(sofar, files[i]);
      sums, still := AddFile(sums, still, files[i], sofar);
    }
    assert files[..|files|] == files;
  }

  lemma {:induction false} BareAre(cells: seq<Cell>)
    ensures forall name :: name in Bare(cells)
                           <==> exists n :: 0 <= n < |cells| && cells[n].files == [] && cells[n].name == name
  {
    if cells != [] {
      var last := |cells| - 1;
      BareAre(cells[..last]);
      assert forall n :: 0 <= n < last ==> cells[..last][n] == cells[n];
    }
  }

  /** The roll-up over every cell of a record. */
  method RollUp(cells: seq<Cell>) returns (totals: Totals, complete: bool, missing: seq<string>)
    ensures Tally(totals, Files(cells))
    ensures missing == Bare(cells)
    ensures forall name :: name in missing
                           <==> exists n :: 0 <= n < |cells| && cells[n].files == [] && cells[n].name == name
    ensures complete <==> missing == [] && AllAccounted(Files(cells))
  {
    totals := map k | k in KEYS :: 0;
    KeysAreAll();
    complete, missing := true, [];
    for n := 0 to |cells|
      invariant Tally(totals, Files(cells[..n]))
      invariant missing == Bare(cells[..n])
      invariant complete <==> AllAccounted(Files(cells[..n]))
    {
      assert cells[..n + 1][..n] == cells[..n];
      ghost var before := Files(cells[..n]);
      if cells[n].files == [] {
        missing := missing + [cells[n].name];
        assert before + [] == before;
      } else {
        totals, complete := AddCell(totals, complete, cells[n].files, before);
      }
    }
    assert cells[..|cells|] == cells;
    BareAre(cells);
    complete := complete && missing == [];
  }

  // ---------------------------------------------------------------- what complete means

  /** Totals written by `Recount`, as reconciling a leg and re-asking for its receipts both do. */
  predicate Faithful(f: LegFile) { f.Readable? ==> f.totals == Recount(f.rows) }

  predicate AllFaithful(files: seq<LegFile>) { forall i :: 0 <= i < |files| ==> Faithful(files[i]) }

  /** A call accounted for in full: a receipt with every summed field, or a known refusal. */
  predicate Settled(r: Row) {
    match r.receipt
    case Some(t) => Cost in t && Prompt in t && Completion in t && Reasoning in t && Cached in t
    case None => r.status.Some? && (r.status.value < 200 || r.status.value >= 300)
  }

  lemma SettledIs(r: Row)
    ensures Settled(r) <==> (Receipted(r) || Refused(r)) && forall k :: k in FIELDS ==> Carries(r, k)
  {
    if Receipted(r) {
      assert Cost in FIELDS && Prompt in FIELDS && Completion in FIELDS && Reasoning in FIELDS && Cached in FIELDS;
    }
  }

  predicate AllSettled(rows: seq<Row>) { forall i :: 0 <= i < |rows| ==> Settled(rows[i]) }

  lemma NoGapsIff(rows: seq<Row>)
    ensures Gaps(rows) == [] <==> forall i :: 0 <= i < |rows| ==> Receipted(rows[i]) || Refused(rows[i])
  {
    var rest, gaps := Keep(rows, Unreceipted), Gaps(rows);
    if gaps != [] {
      KeepIsExact(rest, Answered, gaps[0]);
      KeepIsExact(rows, Unreceipted, gaps[0]);
    }
    if i :| 0 <= i < |rows| && !Receipted(rows[i]) && Answered(rows[i]) {
      KeepIsExact(rows, Unreceipted, rows[i]);
      KeepIsExact(rest, Answered, rows[i]);
    }
  }

  lemma RecountCounts(rows: seq<Row>)
    ensures var t := Recount(rows);
            && Observed in t && WithReceipt in t && Missing in t && Without in t
            && t[Observed] == |rows| && t[WithReceipt] == |Keep(rows, Receipted)|
            && t[Missing] == |Gaps(rows)| && t[Without] == |Excused(rows)|
  {
    var sums := FieldSums(Keep(rows, Receipted));
    assert Observed !in sums && WithReceipt !in sums && Missing !in sums && Without !in sums;
  }

  lemma SumsIff(rows: seq<Row>, k: Key)
    requires k in FIELDS
    ensures Sums(Recount(rows), k) <==> forall i :: 0 <= i < |rows| ==> Carries(rows[i], k)
  {
    RecountCounts(rows);
    TotalsAreAllOrNothing(rows, k);
    SomeReceipt(rows);
  }

  /** Nothing about the calls in a file is left open. */
  predicate Closed(f: LegFile) { f.Readable? && AllSettled(f.rows) }

  lemma FieldsDecide(t: Totals)
    requires Observed in t && WithReceipt in t && Missing in t && Without in t
    ensures (forall k :: k in KEYS ==> Sums(t, k)) <==> (forall k :: k in FIELDS ==> Sums(t, k))
  {
    assert forall k :: k in FIELDS ==> k in KEYS;
    assert forall k :: k in KEYS && k !in FIELDS ==> k in t;
  }

  lemma SettledIff(rows: seq<Row>)
    ensures AllSettled(rows)
            <==> && (forall i :: 0 <= i < |rows| ==> Receipted(rows[i]) || Refused(rows[i]))
                 && (forall k, i :: k in FIELDS && 0 <= i < |rows| ==> Carries(rows[i], k))
  {
    forall i | 0 <= i < |rows| { SettledIs(rows[i]); }
  }

  lemma AccountedIffSettled(f: LegFile)
    requires Faithful(f)
    ensures Accounted(f) <==> Closed(f)
  {
    if f.Readable? {
      var rows, t := f.rows, f.totals;
      RecountCounts(rows);
      NoGapsIff(rows);
      FieldsDecide(t);
      SettledIff(rows);
      assert NonZero(t, Missing) <==> Gaps(rows) != [];
      forall k | k in FIELDS
        ensures Sums(t, k) <==> forall i :: 0 <= i < |rows| ==> Carries(rows[i], k)
      {
        SumsIff(rows, k);
      }
    }
  }

  predicate RecordComplete(cells: seq<Cell>) { Bare(cells) == [] && AllAccounted(Files(cells)) }

  predicate NoneBare(cells: seq<Cell>) { forall n :: 0 <= n < |cells| ==> cells[n].files != [] }

  lemma {:induction false} BareIff(cells: seq<Cell>)
    ensures Bare(cells) == [] <==> NoneBare(cells)
  {
    if cells != [] {
      var n := |cells| - 1;
      BareIff(cells[..n]);
      if cells[n].files == [] {
        assert |Bare(cells)| > 0;
      } else {
        assert Bare(cells) == Bare(cells[..n]);
      }
    }
  }

  predicate AllClosed(files: seq<LegFile>) { forall i :: 0 <= i < |files| ==> Closed(files[i]) }

  lemma AllAccountedIff(files: seq<LegFile>)
    requires AllFaithful(files)
    ensures AllAccounted(files) <==> AllClosed(files)
  {
    forall i | 0 <= i < |files|
      ensures Accounted(files[i]) <==> Closed(files[i])
    {
      AccountedIffSettled(files[i]);
    }
  }

  /** A record is marked complete exactly when every cell has receipts files, every file can be read, and
      every call in them has a receipt with every summed field or was refused. */
  lemma CompleteIffEveryCallSettled(cells: seq<Cell>)
    requires AllFaithful(Files(cells))
    ensures RecordComplete(cells) <==> NoneBare(cells) && AllClosed(Files(cells))
  {
    BareIff(cells);
    AllAccountedIff(Files(cells));
  }

  /** Every row in the files that can be read. */
  function RowsOf(files: seq<LegFile>): seq<Row> {
    if files == [] then []
    else RowsOf(files[..|files| - 1]) + (if files[|files| - 1].Readable? then files[|files| - 1].rows else [])
  }

  lemma {:induction false} KnownAppend(a: seq<Row>, b: seq<Row>, k: Key)
    ensures Known(a + b, k) == Known(a, k) + Known(b, k)
  {
    if b == [] {
      assert a + b == a;
    } else {
      assert (a + b)[..|a + b| - 1] == a + b[..|b| - 1];
      KnownAppend(a, b[..|b| - 1], k);
    }
  }

  lemma CountedIsKnown(f: LegFile, k: Key)
    requires Faithful(f) && Accounted(f) && k in FIELDS
    ensures Counted(f, k) == Known(f.rows, k)
  {
    RecountCounts(f.rows);
    TotalsAreAllOrNothing(f.rows, k);
    PresentIsKnown(f.rows, k);
    PresentIsFull(f.rows, k);
    assert k in KEYS;
  }

  lemma CountedIsAFloor(f: LegFile, k: Key)
    requires Faithful(f) && f.Readable? && k in FIELDS
    requires forall i :: 0 <= i < |f.rows| ==> Value(f.rows[i], k) >= 0
    ensures Counted(f, k) <= Known(f.rows, k)
  {
    TotalsAreAllOrNothing(f.rows, k);
    KnownIsNonNegative(f.rows, k);
  }

  lemma {:induction false} KnownIsNonNegative(rows: seq<Row>, k: Key)
    requires forall i :: 0 <= i < |rows| ==> Value(rows[i], k) >= 0
    ensures Known(rows, k) >= 0
  {
    if rows != [] {
      KnownIsNonNegative(rows[..|rows| - 1], k);
    }
  }

  /** A complete record's sums omit no receipted value of any leg. */
  lemma {:induction false} CompleteOmitsNothing(files: seq<LegFile>, k: Key)
    requires AllFaithful(files) && AllAccounted(files) && k in FIELDS
    ensures SumOf(files, k) == Known(RowsOf(files), k)
  {
    if files != [] {
      var n := |files| - 1;
      CompleteOmitsNothing(files[..n], k);
      CountedIsKnown(files[n], k);
      KnownAppend(RowsOf(files[..n]), files[n].rows, k);
    }
  }

  /** Complete or not, a sum is a floor under the receipted values, as long as none is negative. */
  lemma {:induction false} EverySumIsAFloor(files: seq<LegFile>, k: Key)
    requires AllFaithful(files) && k in FIELDS
    requires forall i, j :: 0 <= i < |files| && files[i].Readable? && 0 <= j < |files[i].rows|
                            ==> Value(files[i].rows[j], k) >= 0
    ensures SumOf(files, k) <= Known(RowsOf(files), k)
  {
    if files != [] {
      var n := |files| - 1;
      EverySumIsAFloor(files[..n], k);
      if files[n].Readable? {
        CountedIsAFloor(files[n], k);
        KnownAppend(RowsOf(files[..n]), files[n].rows, k);
      } else {
        assert RowsOf(files) == RowsOf(files[..n]);
      }
    }
  }

  // ---------------------------------------------------------------- end to end

  /** A file holds a row for each of these calls, in order. */
  predicate FileFor(f: LegFile, calls: seq<ObservedCall>) {
    f.Readable? && |f.rows| == |calls| && forall j :: 0 <= j < |calls| ==> f.rows[j].call == calls[j]
  }

  predicate FilesFor(files: seq<LegFile>, calls: seq<ObservedCall>, windows: seq<Window>, legs: seq<Leg>) {
    |files| == |legs| && forall i :: 0 <= i < |legs| ==> FileFor(files[i], Placed(calls, windows, Some(legs[i])))
  }

  /** Receipts say what was billed, and a refused call was billed nothing. */
  ghost predicate Honest(rows: seq<Row>, k: Key, billed: ObservedCall -> int) {
    forall i :: 0 <= i < |rows| ==> HonestRow(rows[i], k, billed)
  }

  ghost predicate HonestRow(r: Row, k: Key, billed: ObservedCall -> int) {
    if Receipted(r) then k in r.receipt.value ==> r.receipt.value[k] == billed(r.call)
    else Refused(r) ==> billed(r.call) == 0
  }

  lemma {:induction false} KnownIsBilled(rows: seq<Row>, calls: seq<ObservedCall>, k: Key,
                                         billed: ObservedCall -> int)
    requires |rows| == |calls| && forall j :: 0 <= j < |calls| ==> rows[j].call == calls[j]
    requires AllSettled(rows) && Honest(rows, k, billed) && k in FIELDS
    ensures Known(rows, k) == Total(calls, billed)
  {
    if rows != [] {
      var n := |rows| - 1;
      KnownIsBilled(rows[..n], calls[..n], k, billed);
      assert Settled(rows[n]) && HonestRow(rows[n], k, billed);
    }
  }

  lemma {:induction false} SumsAreBilled(files: seq<LegFile>, calls: seq<ObservedCall>, windows: seq<Window>,
                                         legs: seq<Leg>, k: Key, billed: ObservedCall -> int)
    requires FilesFor(files, calls, windows, legs) && AllFaithful(files) && AllAccounted(files) && k in FIELDS
    requires forall i :: 0 <= i < |files| ==> Honest(files[i].rows, k, billed)
    ensures SumOf(files, k) == TotalOver(calls, windows, legs, billed)
  {
    if files != [] {
      var n := |files| - 1;
      SumsAreBilled(files[..n], calls, windows, legs[..n], k, billed);
      CountedIsKnown(files[n], k);
      AccountedIffSettled(files[n]);
      KnownIsBilled(files[n].rows, Placed(calls, windows, Some(legs[n])), k, billed);
    }
  }

  /** End to end: over the files reconciled from one capture and counted complete, what was billed for every
      observed call is the recorded sum plus what the unattributed calls cost. */
  lemma CompleteSumsAreWhatWasBilled(files: seq<LegFile>, calls: seq<ObservedCall>, windows: seq<Window>,
                                     legs: seq<Leg>, k: Key, billed: ObservedCall -> int)
    requires Distinct(legs) && Covers(legs, calls, windows) && k in FIELDS
    requires FilesFor(files, calls, windows, legs) && AllFaithful(files) && AllAccounted(files)
    requires forall i :: 0 <= i < |files| ==> Honest(files[i].rows, k, billed)
    ensures SumOf(files, k) + Total(Placed(calls, windows, None), billed) == Total(calls, billed)
  {
    SumsAreBilled(files, calls, windows, legs, k, billed);
    CallsAreConserved(calls, windows, legs, billed);
  }

  lemma ObservedIsAll(f: LegFile)
    requires Faithful(f) && f.Readable?
    ensures Counted(f, Observed) == |f.rows|
  {
    RecountCounts(f.rows);
  }

  lemma {:induction false} ObservedOver(files: seq<LegFile>, calls: seq<ObservedCall>, windows: seq<Window>,
                                        legs: seq<Leg>, one: ObservedCall -> int)
    requires FilesFor(files, calls, windows, legs) && AllFaithful(files)
    requires forall some :: Total(some, one) == |some|
    ensures SumOf(files, Observed) == TotalOver(calls, windows, legs, one)
  {
    if files != [] {
      var n := |files| - 1;
      ObservedOver(files[..n], calls, windows, legs[..n], one);
      ObservedIsAll(files[n]);
      assert Total(Placed(calls, windows, Some(legs[n])), one) == |files[n].rows|;
    }
  }

  /** Whether or not anything is complete, the calls the roll-up observed and the calls left unattributed
      are the calls recorded. */
  lemma CallsObservedPlusLeftOver(files: seq<LegFile>, calls: seq<ObservedCall>, windows: seq<Window>,
                                  legs: seq<Leg>)
    requires Distinct(legs) && Covers(legs, calls, windows)
    requires FilesFor(files, calls, windows, legs) && AllFaithful(files)
    ensures SumOf(files, Observed) + |Placed(calls, windows, None)| == |calls|
  {
    var one: ObservedCall -> int := c => 1;
    forall some
      ensures Total(some, one) == |some|
    {
      OnesAdd(some, one);
    }
    ObservedOver(files, calls, windows, legs, one);
    CallsAreConserved(calls, windows, legs, one);
  }

  lemma {:induction false} OnesAdd(calls: seq<ObservedCall>, one: ObservedCall -> int)
    requires forall c :: one(c) == 1
    ensures Total(calls, one) == |calls|
  {
    if calls != [] { OnesAdd(calls[..|calls| - 1], one); }
  }

  // ---------------------------------------------------------------- one sitting, start to finish

  /** The gateway's receipts say what was billed, and it bills nothing for what reads as a refusal. */
  ghost predicate HonestGateway(fetch: ObservedCall -> Option<Totals>, k: Key, billed: ObservedCall -> int) {
    && (forall c :: fetch(c).Some? && k in fetch(c).value ==> fetch(c).value[k] == billed(c))
    && (forall c: ObservedCall :: !(200 <= c.status < 300) ==> billed(c) == 0)
  }

  /** A leg's file as reconciling its calls writes it. */
  ghost predicate FileOf(f: LegFile, calls: seq<ObservedCall>, late: ObservedCall -> bool,
                         fetch: ObservedCall -> Option<Totals>)
  {
    && FileFor(f, calls) && Faithful(f)
    && forall i :: 0 <= i < |calls| ==> f.rows[i] == RowOf(calls[i], late(calls[i]), fetch(calls[i]))
  }

  lemma FileIsHonest(f: LegFile, calls: seq<ObservedCall>, late: ObservedCall -> bool,
                     fetch: ObservedCall -> Option<Totals>, k: Key, billed: ObservedCall -> int)
    requires FileOf(f, calls, late, fetch) && HonestGateway(fetch, k, billed)
    ensures Honest(f.rows, k, billed)
  {
    forall i | 0 <= i < |f.rows|
      ensures HonestRow(f.rows[i], k, billed)
    {
      assert f.rows[i] == RowOf(calls[i], late(calls[i]), fetch(calls[i]));
    }
  }

  method WriteLeg(calls: seq<ObservedCall>, late: ObservedCall -> bool, fetch: ObservedCall -> Option<Totals>)
    returns (f: LegFile)
    ensures FileOf(f, calls, late, fetch)
  {
    var rows, totals := Reconcile(calls, seq(|calls|, i requires 0 <= i < |calls| => late(calls[i])), fetch);
    f := Readable(rows, totals);
  }

  /** The files written so far, one a leg. */
  ghost predicate FilesOf(files: seq<LegFile>, legs: seq<Leg>, calls: seq<ObservedCall>, windows: seq<Window>,
                          late: ObservedCall -> bool, fetch: ObservedCall -> Option<Totals>)
  {
    && |files| == |legs| && Distinct(legs)
    && forall i :: 0 <= i < |legs| ==> FileOf(files[i], Placed(calls, windows, Some(legs[i])), late, fetch)
  }

  lemma OneMoreLeg(files: seq<LegFile>, legs: seq<Leg>, calls: seq<ObservedCall>, windows: seq<Window>,
                   late: ObservedCall -> bool, fetch: ObservedCall -> Option<Totals>, f: LegFile, leg: Leg)
    requires FilesOf(files, legs, calls, windows, late, fetch) && leg !in legs
    requires FileOf(f, Placed(calls, windows, Some(leg)), late, fetch)
    ensures FilesOf(files + [f], legs + [leg], calls, windows, late, fetch)
  {
  }

  /** Write the receipts files of one cell, a file for each of its legs that has calls. */
  method WriteCell(name: string, byLeg: map<Leg, seq<ObservedCall>>, late: ObservedCall -> bool,
                   fetch: ObservedCall -> Option<Totals>, ghost calls: seq<ObservedCall>, ghost windows: seq<Window>,
                   ghost before: seq<LegFile>, ghost legsBefore: seq<Leg>)
    returns (files: seq<LegFile>, ghost legs: seq<Leg>)
    requires forall l :: l in byLeg ==> byLeg[l] == Placed(calls, windows, Some(l))
    requires FilesOf(before, legsBefore, calls, windows, late, fetch)
    requires forall l :: l in legsBefore ==> l.cell != name
    ensures FilesOf(before + files, legs, calls, windows, late, fetch)
    ensures forall l :: l in legs <==> l in legsBefore || (l in byLeg && l.cell == name)
  {
    files, legs := [], legsBefore;
    assert before + [] == before;
    var todo := set l | l in byLeg && l.cell == name;
    while todo != {}
      invariant todo <= byLeg.Keys && forall l :: l in todo ==> l.cell == name
      invariant FilesOf(before + files, legs, calls, windows, late, fetch)
      invariant forall l :: l in legs <==> l in legsBefore || (l in byLeg && l.cell == name && l !in todo)
      decreases |todo|
    {
      var leg :| leg in todo;
      var f := WriteLeg(byLeg[leg], late, fetch);
      OneMoreLeg(before + files, legs, calls, windows, late, fetch, f, leg);
      assert before + files + [f] == before + (files + [f]);
      files, legs := files + [f], legs + [leg];
      todo := todo - {leg};
    }
  }

  /** A sitting over a fresh record, from the capture to the roll-up: attribute the calls, reconcile each leg
      into its cell, roll the record up. What the roll-up observed and what was left over are the calls;
      and if it says complete, what was billed for every one of them is its sum plus what the left-over ones
      cost. `billed` and `k` are any reading of an honest gateway. */
  method Sitting(calls: seq<ObservedCall>, windows: seq<Window>, names: seq<string>, late: ObservedCall -> bool,
                 fetch: ObservedCall -> Option<Totals>, ghost k: Key, ghost billed: ObservedCall -> int)
    returns (totals: Totals, complete: bool, missing: seq<string>, unattributed: seq<ObservedCall>)
    requires forall i, j :: 0 <= i < j < |names| ==> names[i] != names[j]
    requires forall i :: 0 <= i < |windows| ==> windows[i].cell in names
    ensures unattributed == Placed(calls, windows, None)
    ensures Observed in totals && totals[Observed] + |unattributed| == |calls|
    ensures complete && k in FIELDS && HonestGateway(fetch, k, billed) ==>
              k in totals && totals[k] + Total(unattributed, billed) == Total(calls, billed)
  {
    var byLeg;
    byLeg, unattributed := Attribute(calls, windows);
    var cells: seq<Cell> := [];
    ghost var legs: seq<Leg> := [];
    for n := 0 to |names|
      invariant FilesOf(Files(cells), legs, calls, windows, late, fetch)
      invariant forall l :: l in legs <==> l in byLeg && l.cell in names[..n]
    {
      var files;
      files, legs := WriteCell(names[n], byLeg, late, fetch, calls, windows, Files(cells), legs);
      assert (cells + [Cell(names[n], files)])[..|cells|] == cells;
      assert names[..n + 1] == names[..n] + [names[n]];
      cells := cells + [Cell(names[n], files)];
    }
    assert names[..|names|] == names;
    totals, complete, missing := RollUp(cells);
    LegsCover(calls, windows, names, legs, byLeg);
    SittingAddsUp(Files(cells), legs, calls, windows, late, fetch);
    if complete && k in FIELDS && HonestGateway(fetch, k, billed) {
      CompleteSittingAddsUp(Files(cells), legs, calls, windows, late, fetch, k, billed);
    }
  }

  lemma LegsCover(calls: seq<ObservedCall>, windows: seq<Window>, names: seq<string>, legs: seq<Leg>,
                  byLeg: map<Leg, seq<ObservedCall>>)
    requires forall i :: 0 <= i < |windows| ==> windows[i].cell in names
    requires forall l :: l in byLeg <==> Placed(calls, windows, Some(l)) != []
    requires forall l :: l in legs <==> l in byLeg && l.cell in names
    ensures Covers(legs, calls, windows)
  {
    forall i | 0 <= i < |calls| && Place(calls[i], windows).Some?
      ensures Place(calls[i], windows).value in legs
    {
      PlaceIsFirstWindow(calls[i], windows);
      IsPlaced(calls, windows, i);
    }
  }

  lemma {:induction false} IsPlaced(calls: seq<ObservedCall>, windows: seq<Window>, i: nat)
    requires i < |calls|
    ensures Placed(calls, windows, Place(calls[i], windows)) != []
  {
    if i < |calls| - 1 {
      IsPlaced(calls[..|calls| - 1], windows, i);
    }
  }

  lemma SittingAddsUp(files: seq<LegFile>, legs: seq<Leg>, calls: seq<ObservedCall>, windows: seq<Window>,
                      late: ObservedCall -> bool, fetch: ObservedCall -> Option<Totals>)
    requires FilesOf(files, legs, calls, windows, late, fetch) && Covers(legs, calls, windows)
    ensures SumOf(files, Observed) + |Placed(calls, windows, None)| == |calls|
    ensures FilesFor(files, calls, windows, legs) && AllFaithful(files)
  {
    forall i | 0 <= i < |files|
      ensures FileFor(files[i], Placed(calls, windows, Some(legs[i]))) && Faithful(files[i])
    {
      assert FileOf(files[i], Placed(calls, windows, Some(legs[i])), late, fetch);
    }
    CallsObservedPlusLeftOver(files, calls, windows, legs);
  }

  lemma CompleteSittingAddsUp(files: seq<LegFile>, legs: seq<Leg>, calls: seq<ObservedCall>, windows: seq<Window>,
                              late: ObservedCall -> bool, fetch: ObservedCall -> Option<Totals>,
                              k: Key, billed: ObservedCall -> int)
    requires FilesOf(files, legs, calls, windows, late, fetch) && Covers(legs, calls, windows)
    requires AllAccounted(files) && k in FIELDS && HonestGateway(fetch, k, billed)
    ensures SumOf(files, k) + Total(Placed(calls, windows, None), billed) == Total(calls, billed)
  {
    SittingAddsUp(files, legs, calls, windows, late, fetch);
    forall i | 0 <= i < |files|
      ensures Honest(files[i].rows, k, billed)
    {
      FileIsHonest(files[i], Placed(calls, windows, Some(legs[i])), late, fetch, k, billed);
    }
    CompleteSumsAreWhatWasBilled(files, calls, windows, legs, k, billed);
  }

  /** The refusals a complete record trusts include the unanswered: a call abandoned before it was
      answered reads as settled, and a record made of it alone as complete. */
  lemma AbandonedCallReadsComplete(c: ObservedCall, cell: string)
    requires c.status == StatusOf(NoAnswer) && !HasId(c)
    ensures var rows := [RowOf(c, false, None)];
            IsGap(rows[0], NoAnswer) && RecordComplete([Cell(cell, [Readable(rows, Recount(rows))])])
  {
    var rows := [RowOf(c, false, None)];
    var f := Readable(rows, Recount(rows));
    AccountedIffSettled(f);
    var cells := [Cell(cell, [f])];
    assert cells[..0] == [];
    assert Files(cells) == [f];
  }

  /** A file whose totals block is absent is accounted for whatever its rows say. */
  lemma AbsentTotalsReadAccounted(rows: seq<Row>)
    ensures Accounted(Readable(rows, map[]))
  {
    assert forall k :: k in KEYS ==> Sums(map[], k);
  }
}
