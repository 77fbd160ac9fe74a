/** The fold as a function: effects in seq order on the raw board, then the derived readiness pass. */
module Reducer {
  import opened Events
  import opened State
  import opened Legality
  import opened Collections

  /** The effect loop over a log already in seq order. */
  function Raw(log: seq<Event>): BoardView {
    if log == [] then EMPTY_BOARD else Effect(Raw(log[..|log| - 1]), log[|log| - 1])
  }

  /** A row the readiness pass looks at. */
  predicate Waiting(row: TaskRow) {
    (row.status == Created || row.status == Reopened) && row.owner.None? && !row.pruned
  }

  /** A join fires when it has no dependencies, or k of its live dependencies are done. */
  predicate Fires(b: BoardView, row: TaskRow) {
    row.dependsOn == {} || |DoneDeps(b, row)| >= ResolveK(row)
  }

  function DeriveRow(b: BoardView, row: TaskRow): TaskRow {
    if !Waiting(row) then row
    else
      var seen := if row.dependsOn == {} then row
                  else row.(joinUnsatisfiable := ResolveK(row) > |LiveDeps(b, row)|);
      if Fires(b, row) then seen.(status := Ready) else seen
  }

  /** The readiness pass, pointwise: every row read against the raw board. */
  function Derive(b: BoardView): BoardView {
    b.(tasks := map t | t in b.tasks :: DeriveRow(b, b.tasks[t]))
  }

  // ---- sorting by seq --------------------------------------------------------------------------

  function SortKey(ev: Event): int { if ev.seqNo.Some? then ev.seqNo.value else 0 }

  function Insert(ev: Event, log: seq<Event>): seq<Event> {
    if log == [] || SortKey(ev) < SortKey(log[0]) then [ev] + log
    else [log[0]] + Insert(ev, log[1..])
  }

  /** The stable sort by seq: an event goes after the earlier ones with the same key. */
  function SortBySeq(log: seq<Event>): seq<Event> {
    if log == [] then [] else Insert(log[|log| - 1], SortBySeq(log[..|log| - 1]))
  }

  /** What the reducer computes from any list of events. */
  function Folded(events: seq<Event>): BoardView { Derive(Raw(SortBySeq(events))) }

  // ---- the readiness pass -----------------------------------------------------------------------

  lemma LiveDepsDerived(b: BoardView, row: TaskRow)
    ensures LiveDeps(Derive(b), row) == LiveDeps(b, row)
    ensures DoneDeps(Derive(b), row) == DoneDeps(b, row)
    ensures DoneDeps(b, row) <= LiveDeps(b, row)
  {
    assert forall t | t in b.tasks :: Derive(b).tasks[t] == DeriveRow(b, b.tasks[t]);
  }

  /** A second pass changes nothing. */
  lemma DeriveIdempotent(b: BoardView)
    ensures Derive(Derive(b)) == Derive(b)
  {
    var d := Derive(b);
    forall t | t in b.tasks
      ensures DeriveRow(d, d.tasks[t]) == d.tasks[t]
    {
      var row := b.tasks[t];
      LiveDepsDerived(b, row);
      assert d.tasks[t] == DeriveRow(b, row);
      assert LiveDeps(d, d.tasks[t]) == LiveDeps(d, row);
      assert DoneDeps(d, d.tasks[t]) == DoneDeps(d, row);
    }
  }

  /** The pass moves created and reopened rows to ready, sets one diagnostic, and touches nothing else;
      a row it makes ready, or leaves ready with a clear diagnostic, is never `join_unsatisfiable`. */
  lemma DeriveChangesOnlyWaiting(b: BoardView, t: string)
    requires t in b.tasks
    ensures Derive(b).tasks.Keys == b.tasks.Keys && Derive(b).roster == b.roster
    ensures var row, out := b.tasks[t], Derive(b).tasks[t];
            && out.(status := row.status, joinUnsatisfiable := row.joinUnsatisfiable) == row
            && (out.status != row.status ==> row.status in {Created, Reopened} && out.status == Ready)
            && (!row.joinUnsatisfiable ==> !(out.status == Ready && out.joinUnsatisfiable))
  {
    var row := b.tasks[t];
    LiveDepsDerived(b, row);
    SubsetSize(DoneDeps(b, row), LiveDeps(b, row));
  }

  // ---- replay depends only on seq order and on stateful events -----------------------------------

  ghost predicate Sorted(log: seq<Event>) {
    forall i, j | 0 <= i < j < |log| :: SortKey(log[i]) <= SortKey(log[j])
  }

  ghost predicate DistinctSeqs(log: seq<Event>) {
    forall i, j | 0 <= i < j < |log| :: SortKey(log[i]) != SortKey(log[j])
  }

  lemma {:induction false} InsertIsPermutation(ev: Event, log: seq<Event>)
    ensures multiset(Insert(ev, log)) == multiset(log) + multiset{ev}
  {
    if log != [] && SortKey(ev) >= SortKey(log[0]) {
      InsertIsPermutation(ev, log[1..]);
      assert log == [log[0]] + log[1..];
    }
  }

  lemma {:induction false} InsertMembers(ev: Event, log: seq<Event>, e: Event)
    ensures e in Insert(ev, log) <==> e in log || e == ev
  {
    if log != [] && SortKey(ev) >= SortKey(log[0]) {
      InsertMembers(ev, log[1..], e);
      assert log == [log[0]] + log[1..];
    }
  }

  lemma {:induction false} InsertSorted(ev: Event, log: seq<Event>)
    requires Sorted(log)
    ensures Sorted(Insert(ev, log))
  {
    if log != [] && SortKey(ev) >= SortKey(log[0]) {
      InsertSorted(ev, log[1..]);
      var rest := Insert(ev, log[1..]);
      forall i | 0 <= i < |rest|
        ensures SortKey(log[0]) <= SortKey(rest[i])
      {
        InsertMembers(ev, log[1..], rest[i]);
      }
    }
  }

  lemma {:induction false} SortIsPermutation(log: seq<Event>)
    ensures multiset(SortBySeq(log)) == multiset(log)
  {
    if log != [] {
      var init, last := log[..|log| - 1], log[|log| - 1];
      SortIsPermutation(init);
      InsertIsPermutation(last, SortBySeq(init));
      MultisetAppend(init, last);
      assert log == init + [last];
    }
  }

  lemma {:induction false} SortSorted(log: seq<Event>)
    ensures Sorted(SortBySeq(log))
    ensures multiset(SortBySeq(log)) == multiset(log)
  {
    SortIsPermutation(log);
    if log != [] {
      SortSorted(log[..|log| - 1]);
      InsertSorted(log[|log| - 1], SortBySeq(log[..|log| - 1]));
    }
  }

  lemma InsertLast(ev: Event, log: seq<Event>)
    requires forall e | e in log :: SortKey(e) <= SortKey(ev)
    ensures Insert(ev, log) == log + [ev]
  {
    if log != [] {
      InsertLast(ev, log[1..]);
      assert log == [log[0]] + log[1..];
    }
  }

  /** A log already in seq order is read as it stands. */
  lemma SortOfSorted(log: seq<Event>)
    requires Sorted(log)
    ensures SortBySeq(log) == log
  {
    if log != [] {
      SortOfSorted(log[..|log| - 1]);
      InsertLast(log[|log| - 1], log[..|log| - 1]);
      assert log == log[..|log| - 1] + [log[|log| - 1]];
    }
  }

  lemma DistinctIsPermutationInvariant(a: seq<Event>, b: seq<Event>)
    requires multiset(a) == multiset(b) && DistinctSeqs(a)
    ensures DistinctSeqs(b)
  {
    forall i, j | 0 <= i < j < |b| && SortKey(b[i]) == SortKey(b[j])
      ensures false
    {
      SameKeySameEvent(a, b, b[i], b[j]);
      assert b == b[..i] + [b[i]] + b[i + 1..j] + [b[j]] + b[j + 1..];
      assert multiset(b)[b[i]] >= 2;
      NoRepeats(a, b[i]);
    }
  }

  lemma SameKeySameEvent(a: seq<Event>, b: seq<Event>, e: Event, f: Event)
    requires multiset(a) == multiset(b) && DistinctSeqs(a)
    requires e in b && f in b && SortKey(e) == SortKey(f)
    ensures e == f
  {
    assert e in multiset(a) && f in multiset(a);
  }

  lemma NoRepeats(a: seq<Event>, e: Event)
    requires DistinctSeqs(a)
    ensures multiset(a)[e] <= 1
  {
    if a != [] {
      NoRepeats(a[1..], e);
      assert a == [a[0]] + a[1..];
      if e == a[0] {
        assert e !in a[1..];
      }
    }
  }

  /** Two sorted lists of the same events with distinct keys are the same list. */
  lemma {:induction false} SortedUnique(a: seq<Event>, b: seq<Event>)
    requires Sorted(a) && Sorted(b) && DistinctSeqs(a) && multiset(a) == multiset(b)
    ensures a == b
    decreases |a|
  {
    if a == [] {
      assert |multiset(b)| == 0;
    } else {
      assert |multiset(a)| == |multiset(b)| > 0;
      SameHead(a, b);
      TailMultiset(a);
      TailMultiset(b);
      SortedUnique(a[1..], b[1..]);
      assert a == [a[0]] + a[1..] && b == [b[0]] + b[1..];
    }
  }

  lemma TailMultiset(a: seq<Event>)
    requires a != []
    ensures multiset(a[1..]) == multiset(a) - multiset{a[0]}
  {
    assert a == [a[0]] + a[1..];
  }

  lemma SameHead(a: seq<Event>, b: seq<Event>)
    requires Sorted(a) && Sorted(b) && DistinctSeqs(a) && multiset(a) == multiset(b)
    requires a != [] && b != []
    ensures a[0] == b[0]
  {
    assert a[0] in multiset(b) && b[0] in multiset(a);
    assert SortKey(a[0]) <= SortKey(b[0]) && SortKey(b[0]) <= SortKey(a[0]);
    SameKeySameEvent(a, b, a[0], b[0]);
  }

  /** Replay does not depend on the order in which the events are handed over. */
  lemma ReplayIgnoresOrder(a: seq<Event>, b: seq<Event>)
    requires multiset(a) == multiset(b) && DistinctSeqs(a)
    ensures Folded(a) == Folded(b)
  {
    SortSorted(a);
    SortSorted(b);
    DistinctIsPermutationInvariant(a, SortBySeq(a));
    SortedUnique(SortBySeq(a), SortBySeq(b));
  }

  /** The events of a log that have a rule, in order. */
  function Stateful(log: seq<Event>): seq<Event> {
    if log == [] then []
    else Stateful(log[..|log| - 1]) + if HasRule(log[|log| - 1].op) then [log[|log| - 1]] else []
  }

  lemma RawStateful(log: seq<Event>)
    ensures Raw(Stateful(log)) == Raw(log)
  {
    if log != [] {
      RawStateful(log[..|log| - 1]);
      var rest := Stateful(log[..|log| - 1]);
      var last := log[|log| - 1];
      if HasRule(last.op) {
        assert (rest + [last])[..|rest|] == rest;
      } else {
        assert rest + [] == rest;
      }
    }
  }

  lemma StatefulAppend(log: seq<Event>, ev: Event)
    ensures Stateful(log + [ev]) == Stateful(log) + if HasRule(ev.op) then [ev] else []
  {
    assert (log + [ev])[..|log|] == log;
  }

  lemma {:induction false} InsertStateful(ev: Event, log: seq<Event>)
    requires Sorted(log)
    ensures Stateful(Insert(ev, log)) == if HasRule(ev.op) then Insert(ev, Stateful(log)) else Stateful(log)
    decreases |log|
  {
    if log == [] {
      StatefulAppend([], ev);
      assert [] + [ev] == [ev];
    } else {
      var last, init := log[|log| - 1], log[..|log| - 1];
      assert log == init + [last];
      if SortKey(ev) < SortKey(last) {
        InsertStateful(ev, init);
        StatefulBeforeLast(ev, init, last);
      } else {
        InsertLast(ev, log);
        StatefulAppend(log, ev);
        StatefulMembers(log);
        InsertLast(ev, Stateful(log));
      }
    }
  }

  lemma StatefulBeforeLast(ev: Event, init: seq<Event>, last: Event)
    requires SortKey(ev) < SortKey(last)
    requires Stateful(Insert(ev, init)) == if HasRule(ev.op) then Insert(ev, Stateful(init)) else Stateful(init)
    ensures Stateful(Insert(ev, init + [last])) ==
            if HasRule(ev.op) then Insert(ev, Stateful(init + [last])) else Stateful(init + [last])
  {
    InsertBeforeLast(ev, init, last);
    StatefulAppend(init, last);
    StatefulAppend(Insert(ev, init), last);
    if HasRule(last.op) {
      InsertBeforeLast(ev, Stateful(init), last);
    } else {
      assert Stateful(Insert(ev, init)) + [] == Stateful(Insert(ev, init));
      assert Stateful(init) + [] == Stateful(init);
    }
  }

  lemma InsertBeforeLast(ev: Event, init: seq<Event>, last: Event)
    requires SortKey(ev) < SortKey(last)
    ensures Insert(ev, init + [last]) == Insert(ev, init) + [last]
  {
    var log := init + [last];
    if init == [] {
    } else if SortKey(ev) < SortKey(init[0]) {
    } else {
      InsertBeforeLast(ev, init[1..], last);
      assert log[1..] == init[1..] + [last];
    }
  }

  lemma StatefulMembers(log: seq<Event>)
    ensures forall e | e in Stateful(log) :: e in log && HasRule(e.op)
  {
    if log != [] {
      StatefulMembers(log[..|log| - 1]);
    }
  }

  lemma SortStateful(log: seq<Event>)
    ensures SortBySeq(Stateful(log)) == Stateful(SortBySeq(log))
  {
    if log != [] {
      var last, init := log[|log| - 1], log[..|log| - 1];
      SortStateful(init);
      SortSorted(init);
      InsertStateful(last, SortBySeq(init));
      var rest := Stateful(init);
      if HasRule(last.op) {
        assert (rest + [last])[..|rest|] == rest;
      } else {
        assert rest + [] == rest;
      }
    }
  }

  /** Two lists with the same stateful events fold to the same board, whatever facts, notes and
      recorded refusals lie between them. */
  lemma ReplayIgnoresFacts(a: seq<Event>, b: seq<Event>)
    requires Stateful(a) == Stateful(b)
    ensures Folded(a) == Folded(b)
  {
    SortStateful(a);
    SortStateful(b);
    RawStateful(SortBySeq(a));
    RawStateful(SortBySeq(b));
  }
}
