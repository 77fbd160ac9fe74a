/** Ranking bundles by what they finally and first passed, ties left tied. */
module Ranking {
  import opened Wrappers
  import opened Collections

  datatype Cell = Cell(firstPassed: Option<bool>, finalPassed: Option<bool>, remediated: bool, inconclusive: bool)
  datatype Bundle = Bundle(name: string, cells: seq<Cell>, unreachable: Option<string>)

  /** Scores are absent for a bundle that could not be reached. */
  datatype Row = Row(place: Option<int>, name: string, finalGreen: Option<int>, firstGreen: Option<int>,
                     outOf: int, repairs: int, tied: bool, why: Option<string>)

  /** The cells that passed in the end, the ones that passed at once, and the repaired ones, by their places. */
  function FinalCells(b: Bundle): set<int> {
    set i | 0 <= i < |b.cells| && b.cells[i].finalPassed == Some(true) && !b.cells[i].inconclusive
  }

  function FirstCells(b: Bundle): set<int> {
    set i | 0 <= i < |b.cells| && b.cells[i].firstPassed == Some(true) && !b.cells[i].inconclusive
  }

  function RepairedCells(b: Bundle): set<int> { set i | 0 <= i < |b.cells| && b.cells[i].remediated }

  predicate FirstGreen(c: Cell) { c.firstPassed == Some(true) && !c.inconclusive }

  predicate FinalGreen(c: Cell) { c.finalPassed == Some(true) && !c.inconclusive }

  predicate Remediated(c: Cell) { c.remediated }

  function Count<T>(s: seq<T>, p: T -> bool): (n: nat)
    ensures n <= |s|
  {
    if s == [] then 0 else (if p(s[0]) then 1 else 0) + Count(s[1..], p)
  }

  function Finals(b: Bundle): nat { Count(b.cells, FinalGreen) }

  function Firsts(b: Bundle): nat { Count(b.cells, FirstGreen) }

  predicate Reachable(b: Bundle) { b.unreachable.None? }

  /** A strictly better score: more final greens, or as many and more first-shot greens. */
  predicate Beats(a: Bundle, b: Bundle) {
    Finals(a) > Finals(b) || (Finals(a) == Finals(b) && Firsts(a) > Firsts(b))
  }

  predicate SameScore(a: Bundle, b: Bundle) { Finals(a) == Finals(b) && Firsts(a) == Firsts(b) }

  predicate LexLess(a: string, b: string) {
    b != "" && (a == "" || a[0] < b[0] || (a[0] == b[0] && LexLess(a[1..], b[1..])))
  }

  /** The sort key (-final, -first, label). */
  predicate Ahead(a: Bundle, b: Bundle) { Beats(a, b) || (SameScore(a, b) && LexLess(a.name, b.name)) }

  lemma {:induction false} CountIsWhere<T>(s: seq<T>, p: T -> bool)
    ensures Count(s, p) == |Where(s, p)|
    decreases |s|
  {
    if s != [] {
      var n := |s| - 1;
      assert s == s[..n] + [s[n]];
      CountAppend(s[..n], s[n], p);
      CountIsWhere(s[..n], p);
      assert Where(s, p) == Where(s[..n], p) + if p(s[n]) then {n} else {};
    }
  }

  /** A bundle's score is how many of its cells passed in the end, and how many at once. */
  lemma ScoreCounts(b: Bundle)
    ensures Finals(b) == |FinalCells(b)| && Firsts(b) == |FirstCells(b)|
    ensures Count(b.cells, Remediated) == |RepairedCells(b)|
  {
    CountIsWhere(b.cells, FinalGreen);
    CountIsWhere(b.cells, FirstGreen);
    CountIsWhere(b.cells, Remediated);
    assert Where(b.cells, FinalGreen) == FinalCells(b) && Where(b.cells, FirstGreen) == FirstCells(b);
    assert Where(b.cells, Remediated) == RepairedCells(b);
  }

  /** The order of names is the alphabet's: a proper beginning first, else by the first difference. */
  lemma {:induction false} LexIsAlphabetical(a: string, b: string)
    ensures LexLess(a, b) <==> a < b || exists i :: 0 <= i < |a| && i < |b| && a[..i] == b[..i] && a[i] < b[i]
  {
    if a != "" && b != "" && a[0] == b[0] {
      LexIsAlphabetical(a[1..], b[1..]);
      assert a < b <==> a[1..] < b[1..];
      forall i | 0 < i < |a| && i < |b|
        ensures a[..i] == b[..i] <==> a[1..][..i - 1] == b[1..][..i - 1]
      {
        assert a[..i] == [a[0]] + a[1..][..i - 1] && b[..i] == [b[0]] + b[1..][..i - 1];
      }
      if i :| 0 <= i < |a[1..]| && i < |b[1..]| && a[1..][..i] == b[1..][..i] && a[1..][i] < b[1..][i] {
        assert a[..i + 1] == b[..i + 1] && a[i + 1] < b[i + 1];
      }
      if i :| 0 <= i < |a| && i < |b| && a[..i] == b[..i] && a[i] < b[i] {
        assert a[1..][..i - 1] == b[1..][..i - 1] && a[1..][i - 1] < b[1..][i - 1];
      }
    } else if a != "" && b != "" && a[0] < b[0] {
      assert a[..0] == b[..0];
    }
  }

  lemma {:induction false} LexOrders(a: string, b: string, c: string)
    ensures LexLess(a, b) && LexLess(b, c) ==> LexLess(a, c)
    ensures LexLess(a, b) ==> !LexLess(b, a)
    ensures LexLess(a, c) ==> LexLess(a, b) || LexLess(b, c)
  {
    if a != "" && b != "" && c != "" {
      LexOrders(a[1..], b[1..], c[1..]);
    } else if a != "" && b != "" {
      LexOrders(a[1..], b[1..], "");
    }
  }

  /** `sorted` with that key: stable, so equals keep their order. */
  function Insert(sorted: seq<Bundle>, b: Bundle): seq<Bundle> {
    if sorted == [] || Ahead(b, sorted[0]) then [b] + sorted else [sorted[0]] + Insert(sorted[1..], b)
  }

  function Sorted(bundles: seq<Bundle>): seq<Bundle> {
    if bundles == [] then []
    else var n := |bundles| - 1; Insert(Sorted(bundles[..n]), bundles[n])
  }

  predicate NotAfter(s: seq<Bundle>, i: nat, j: nat)
    requires i < |s| && j < |s|
  {
    !Ahead(s[j], s[i])
  }

  predicate InOrder(s: seq<Bundle>) { forall i, j :: 0 <= i < j < |s| ==> NotAfter(s, i, j) }

  lemma {:induction false} InsertKeeps(sorted: seq<Bundle>, b: Bundle, p: Bundle -> bool)
    ensures Count(Insert(sorted, b), p) == Count(sorted, p) + (if p(b) then 1 else 0)
    ensures forall x :: x in Insert(sorted, b) <==> x in sorted || x == b
    ensures |Insert(sorted, b)| == |sorted| + 1
  {
    if sorted == [] || Ahead(b, sorted[0]) {
      assert ([b] + sorted)[1..] == sorted;
    } else {
      InsertKeeps(sorted[1..], b, p);
      var rest := Insert(sorted[1..], b);
      assert ([sorted[0]] + rest)[1..] == rest;
      assert sorted == [sorted[0]] + sorted[1..];
    }
  }

  lemma NotAheadIsTransitive(a: Bundle, b: Bundle, c: Bundle)
    requires !Ahead(b, a) && !Ahead(c, b)
    ensures !Ahead(c, a)
  {
    LexOrders(c.name, b.name, a.name);
  }

  lemma AheadIsOneWay(a: Bundle, b: Bundle)
    ensures Ahead(a, b) ==> !Ahead(b, a)
  {
    LexOrders(a.name, b.name, a.name);
  }

  lemma {:induction false} InsertInOrder(sorted: seq<Bundle>, b: Bundle)
    requires InOrder(sorted)
    ensures InOrder(Insert(sorted, b))
  {
    if sorted != [] {
      var rest := if Ahead(b, sorted[0]) then sorted else Insert(sorted[1..], b);
      var head := if Ahead(b, sorted[0]) then b else sorted[0];
      forall i, j | 0 <= i < j < |sorted[1..]|
        ensures NotAfter(sorted[1..], i, j)
      {
        assert NotAfter(sorted, i + 1, j + 1);
      }
      if !Ahead(b, sorted[0]) {
        InsertInOrder(sorted[1..], b);
        InsertKeeps(sorted[1..], b, Reachable);
      }
      forall j | 0 <= j < |rest|
        ensures !Ahead(rest[j], head)
      {
        assert rest[j] in rest;
        assert sorted == [sorted[0]] + sorted[1..];
        HeadIsFirst(sorted, b, rest[j]);
      }
      ConsInOrder(head, rest);
    }
  }

  lemma ConsInOrder(head: Bundle, rest: seq<Bundle>)
    requires InOrder(rest) && forall j :: 0 <= j < |rest| ==> !Ahead(rest[j], head)
    ensures InOrder([head] + rest)
  {
    forall i, j | 0 <= i < j < |rest| + 1
      ensures NotAfter([head] + rest, i, j)
    {
      assert i > 0 ==> NotAfter(rest, i - 1, j - 1);
    }
  }

  lemma HeadIsFirst(sorted: seq<Bundle>, b: Bundle, x: Bundle)
    requires sorted != [] && InOrder(sorted)
    requires x in sorted || x == b
    requires Ahead(b, sorted[0]) ==> x in sorted
    ensures !Ahead(x, if Ahead(b, sorted[0]) then b else sorted[0])
  {
    if x in sorted {
      var i :| 0 <= i < |sorted| && sorted[i] == x;
      AheadIsOneWay(sorted[0], sorted[0]);
      if i > 0 { assert NotAfter(sorted, 0, i); }
      if Ahead(b, sorted[0]) {
        AheadIsOneWay(b, sorted[0]);
        NotAheadIsTransitive(b, sorted[0], x);
      }
    }
  }

  lemma {:induction false} CountAppend<T>(s: seq<T>, x: T, p: T -> bool)
    ensures Count(s + [x], p) == Count(s, p) + (if p(x) then 1 else 0)
  {
    if s == [] {
      assert (s + [x])[1..] == [];
    } else {
      assert (s + [x])[1..] == s[1..] + [x];
      CountAppend(s[1..], x, p);
    }
  }

  /** Sorting keeps every bundle, each as often as it came, and puts them in order. */
  lemma {:induction false} SortedIsAPermutation(bundles: seq<Bundle>, p: Bundle -> bool)
    ensures Count(Sorted(bundles), p) == Count(bundles, p)
    ensures |Sorted(bundles)| == |bundles| && InOrder(Sorted(bundles))
  {
    if bundles != [] {
      var n := |bundles| - 1;
      SortedIsAPermutation(bundles[..n], p);
      assert bundles == bundles[..n] + [bundles[n]];
      CountAppend(bundles[..n], bundles[n], p);
      InsertKeeps(Sorted(bundles[..n]), bundles[n], p);
      InsertInOrder(Sorted(bundles[..n]), bundles[n]);
    }
  }

  // ---------------------------------------------------------------- places

  /** One more than the bundles of a field that score strictly better. */
  function PlaceIn(rivals: seq<Bundle>, b: Bundle): int { 1 + Count(rivals, x => Beats(x, b)) }

  /** How many of a field share this score, the bundle itself among them. */
  function Tied(rivals: seq<Bundle>, b: Bundle): nat { Count(rivals, x => SameScore(x, b)) }

  /** The bundles of a field with more final greens than this one, or as many and more at once. */
  function Better(rivals: seq<Bundle>, b: Bundle): set<int> {
    set j | 0 <= j < |rivals| && (|FinalCells(rivals[j])| > |FinalCells(b)|
                                  || (|FinalCells(rivals[j])| == |FinalCells(b)|
                                      && |FirstCells(rivals[j])| > |FirstCells(b)|))
  }

  function Level(rivals: seq<Bundle>, b: Bundle): set<int> {
    set j | 0 <= j < |rivals| && |FinalCells(rivals[j])| == |FinalCells(b)|
            && |FirstCells(rivals[j])| == |FirstCells(b)|
  }

  lemma PlaceCounts(rivals: seq<Bundle>, b: Bundle)
    ensures PlaceIn(rivals, b) == 1 + |Better(rivals, b)|
    ensures Tied(rivals, b) == |Level(rivals, b)|
  {
    CountIsWhere(rivals, x => Beats(x, b));
    CountIsWhere(rivals, x => SameScore(x, b));
    ScoreCounts(b);
    forall j | 0 <= j < |rivals|
      ensures j in Where(rivals, x => Beats(x, b)) <==> j in Better(rivals, b)
      ensures j in Where(rivals, x => SameScore(x, b)) <==> j in Level(rivals, b)
    {
      ScoreCounts(rivals[j]);
    }
    assert Where(rivals, x => Beats(x, b)) == Better(rivals, b);
    assert Where(rivals, x => SameScore(x, b)) == Level(rivals, b);
  }

  /** What the row of a reachable bundle says, counted out. */
  predicate SaysPlace(row: Row, rivals: seq<Bundle>, b: Bundle) {
    row == Row(Some(1 + |Better(rivals, b)|), b.name, Some(|FinalCells(b)|), Some(|FirstCells(b)|), |b.cells|,
               |RepairedCells(b)|, |Level(rivals, b)| > 1, None)
  }

  lemma PlacedSays(rivals: seq<Bundle>, b: Bundle)
    ensures SaysPlace(Placed(b, PlaceIn(rivals, b), Tied(rivals, b) > 1), rivals, b)
  {
    ScoreCounts(b);
    PlaceCounts(rivals, b);
  }

  /** In a list in order, no later bundle has more final greens than an earlier one, or as many and more at once,
      or the same score and a name that comes first. */
  lemma OrderSays(s: seq<Bundle>, i: nat, j: nat)
    requires InOrder(s) && i < j < |s|
    ensures |FinalCells(s[i])| >= |FinalCells(s[j])|
    ensures |FinalCells(s[i])| == |FinalCells(s[j])| ==> |FirstCells(s[i])| >= |FirstCells(s[j])|
    ensures |FinalCells(s[i])| == |FinalCells(s[j])| && |FirstCells(s[i])| == |FirstCells(s[j])| ==>
              !LexLess(s[j].name, s[i].name)
  {
    assert NotAfter(s, i, j);
    ScoreCounts(s[i]);
    ScoreCounts(s[j]);
  }

  lemma {:induction false} CountOfPrefix(s: seq<Bundle>, p: Bundle -> bool, m: nat)
    requires m <= |s|
    requires forall j :: 0 <= j < |s| ==> (p(s[j]) <==> j < m)
    ensures Count(s, p) == m
  {
    if s != [] {
      CountOfPrefix(s[1..], p, if m > 0 then m - 1 else 0);
    }
  }

  /** In order, a bundle's place is one more than the index its tie group starts at. */
  lemma PlaceByIndex(s: seq<Bundle>, m: nat, i: nat)
    requires InOrder(s) && GroupStarts(s, m, i)
    ensures PlaceIn(s, s[i]) == m + 1
  {
    var p := (x: Bundle) => Beats(x, s[i]);
    forall j | 0 <= j < |s|
      ensures p(s[j]) <==> j < m
    {
      if j < m {
        ScoresFall(s, j, m - 1);
        ScoresFall(s, m - 1, i);
      } else {
        ScoresFall(s, m, j);
      }
    }
    CountOfPrefix(s, p, m);
  }

  lemma ScoresFall(s: seq<Bundle>, i: nat, j: nat)
    requires InOrder(s) && i <= j < |s|
    ensures !Beats(s[j], s[i])
  {
    if i < j { assert NotAfter(s, i, j); }
  }

  /** Two bundles of a field have one place exactly when they have one score. */
  lemma SamePlaceIffSameScore(s: seq<Bundle>, a: Bundle, b: Bundle)
    requires a in s && b in s
    ensures PlaceIn(s, a) == PlaceIn(s, b) <==> SameScore(a, b)
  {
    if SameScore(a, b) {
      CountAgrees(s, x => Beats(x, a), x => Beats(x, b));
    } else if Beats(a, b) {
      CountGrows(s, x => Beats(x, a), x => Beats(x, b), a);
    } else {
      CountGrows(s, x => Beats(x, b), x => Beats(x, a), b);
    }
  }

  lemma {:induction false} CountAgrees(s: seq<Bundle>, p: Bundle -> bool, q: Bundle -> bool)
    requires forall x :: p(x) == q(x)
    ensures Count(s, p) == Count(s, q)
  {
    if s != [] { CountAgrees(s[1..], p, q); }
  }

  lemma {:induction false} CountGrows(s: seq<Bundle>, p: Bundle -> bool, q: Bundle -> bool, extra: Bundle)
    requires forall x :: p(x) ==> q(x)
    requires extra in s ==> q(extra) && !p(extra)
    ensures Count(s, p) <= Count(s, q) && (extra in s ==> Count(s, p) < Count(s, q))
  {
    if s != [] {
      if s[0] == extra {
        CountMonotone(s[1..], p, q);
      } else {
        CountGrows(s[1..], p, q, extra);
      }
    }
  }

  lemma {:induction false} CountMonotone(s: seq<Bundle>, p: Bundle -> bool, q: Bundle -> bool)
    requires forall x :: p(x) ==> q(x)
    ensures Count(s, p) <= Count(s, q)
  {
    if s != [] { CountMonotone(s[1..], p, q); }
  }

  // ---------------------------------------------------------------- the ranking

  function Reached(bundles: seq<Bundle>): seq<Bundle> { Keep(bundles, Reachable) }

  predicate Unreachable(b: Bundle) { b.unreachable.Some? }

  function Placed(b: Bundle, place: int, tied: bool): Row {
    Row(Some(place), b.name, Some(Finals(b)), Some(Firsts(b)), |b.cells|, Count(b.cells, Remediated), tied, None)
  }

  function Unplaced(b: Bundle): Row { Row(None, b.name, None, None, 0, 0, false, b.unreachable) }

  function CountRows(rows: seq<Row>, place: int): nat { Count(rows, (r: Row) => r.place == Some(place)) }

  lemma {:induction false} RowsByScore(keyed: seq<Bundle>, rows: seq<Row>, all: seq<Bundle>, b: Bundle)
    requires |rows| == |keyed| && b in all && forall j :: 0 <= j < |keyed| ==> keyed[j] in all
    requires forall j :: 0 <= j < |keyed| ==> rows[j].place == Some(PlaceIn(all, keyed[j]))
    ensures CountRows(rows, PlaceIn(all, b)) == Tied(keyed, b)
  {
    if keyed != [] {
      SamePlaceIffSameScore(all, keyed[0], b);
      RowsByScore(keyed[1..], rows[1..], all, b);
    }
  }

  /** The group of equal scores that ends at index `i` starts at index `m`. */
  predicate GroupStarts(keyed: seq<Bundle>, m: nat, i: nat) {
    m <= i < |keyed| && SameScore(keyed[m], keyed[i]) && (m > 0 ==> !SameScore(keyed[m - 1], keyed[i]))
  }

  lemma GroupGoesOn(keyed: seq<Bundle>, m: nat, i: nat)
    requires GroupStarts(keyed, m, i) && i + 1 < |keyed|
    ensures GroupStarts(keyed, if SameScore(keyed[i], keyed[i + 1]) then m else i + 1, i + 1)
  {
  }

  predicate RowFor(row: Row, keyed: seq<Bundle>, b: Bundle) { row == Placed(b, PlaceIn(keyed, b), false) }

  /** Give out places along the sorted list: a new place wherever the score changes. */
  method GivePlaces(keyed: seq<Bundle>) returns (rows: seq<Row>)
    requires InOrder(keyed)
    ensures |rows| == |keyed|
    ensures forall j :: 0 <= j < |keyed| ==> RowFor(rows[j], keyed, keyed[j])
  {
    rows := [];
    var place := 0;
    var previous: Option<(int, int)> := None;
    for i := 0 to |keyed|
      invariant |rows| == i && Counting(keyed, i, place, previous)
      invariant forall j :: 0 <= j < i ==> RowFor(rows[j], keyed, keyed[j])
    {
      var row;
      place, previous, row := NextRow(keyed, i, place, previous);
      rows := rows + [row];
    }
  }

  /** Where the loop stands before index `i`: the place and the score of the row before. */
  predicate Counting(keyed: seq<Bundle>, i: nat, place: int, previous: Option<(int, int)>)
    requires i <= |keyed|
  {
    if i == 0 then previous == None
    else place > 0 && GroupStarts(keyed, place - 1, i - 1)
         && previous == Some((Finals(keyed[i - 1]), Firsts(keyed[i - 1])))
  }

  /** One turn of the loop. */
  method NextRow(keyed: seq<Bundle>, i: nat, place: int, previous: Option<(int, int)>)
    returns (place': int, previous': Option<(int, int)>, row: Row)
    requires InOrder(keyed) && i < |keyed| && Counting(keyed, i, place, previous)
    ensures Counting(keyed, i + 1, place', previous') && RowFor(row, keyed, keyed[i])
  {
    place', previous' := place, previous;
    var key := (Finals(keyed[i]), Firsts(keyed[i]));
    NextPlace(keyed, place, i);
    if previous != Some(key) {
      place' := i + 1;
      previous' := Some(key);
    }
    row := Placed(keyed[i], place', false);
  }

  lemma NextPlace(keyed: seq<Bundle>, place: int, i: nat)
    requires InOrder(keyed) && i < |keyed|
    requires i > 0 ==> place > 0 && GroupStarts(keyed, place - 1, i - 1)
    ensures var next := if i > 0 && SameScore(keyed[i - 1], keyed[i]) then place else i + 1;
            && next > 0 && GroupStarts(keyed, next - 1, i)
            && RowFor(Placed(keyed[i], next, false), keyed, keyed[i])
  {
    if i > 0 {
      GroupGoesOn(keyed, place - 1, i - 1);
      PlaceByIndex(keyed, if SameScore(keyed[i - 1], keyed[i]) then place - 1 else i, i);
    } else {
      PlaceByIndex(keyed, 0, 0);
    }
  }

  /** Mark the rows whose place is given out more than once. */
  method MarkTies(keyed: seq<Bundle>, placed: seq<Row>) returns (rows: seq<Row>)
    requires |placed| == |keyed|
    requires forall j :: 0 <= j < |keyed| ==> RowFor(placed[j], keyed, keyed[j])
    ensures |rows| == |keyed|
    ensures forall j :: 0 <= j < |keyed| ==>
              rows[j] == Placed(keyed[j], PlaceIn(keyed, keyed[j]), Tied(keyed, keyed[j]) > 1)
  {
    rows := [];
    for i := 0 to |keyed|
      invariant |rows| == i
      invariant forall j :: 0 <= j < i ==>
                  rows[j] == Placed(keyed[j], PlaceIn(keyed, keyed[j]), Tied(keyed, keyed[j]) > 1)
    {
      RowsByScore(keyed, placed, keyed, keyed[i]);
      rows := rows + [placed[i].(tied := CountRows(placed, placed[i].place.value) > 1)];
    }
  }

  lemma SortingKeepsPlaces(reached: seq<Bundle>, b: Bundle)
    ensures PlaceIn(Sorted(reached), b) == PlaceIn(reached, b)
    ensures Tied(Sorted(reached), b) == Tied(reached, b)
  {
    SortedIsAPermutation(reached, x => Beats(x, b));
    SortedIsAPermutation(reached, x => SameScore(x, b));
  }

  /** The rows of the unreachable bundles, in the order given. */
  method ListUnreachable(bundles: seq<Bundle>) returns (rows: seq<Row>)
    ensures |rows| == |Keep(bundles, Unreachable)|
    ensures forall i :: 0 <= i < |rows| ==> rows[i] == Unplaced(Keep(bundles, Unreachable)[i])
  {
    rows := [];
    for i := 0 to |bundles|
      invariant |rows| == |Keep(bundles[..i], Unreachable)|
      invariant forall j :: 0 <= j < |rows| ==> rows[j] == Unplaced(Keep(bundles[..i], Unreachable)[j])
    {
      assert bundles[..i + 1][..i] == bundles[..i];
      if Unreachable(bundles[i]) {
        rows := rows + [Unplaced(bundles[i])];
      }
    }
    assert bundles[..|bundles|] == bundles;
  }

  /** Every reachable bundle in order, at one more than the bundles that score strictly better and marked
      tied exactly when another has its score; then every unreachable one, unplaced, in the order given. */
  method Rank(bundles: seq<Bundle>) returns (rows: seq<Row>)
    ensures var reached, rest := Reached(bundles), Keep(bundles, Unreachable);
            && |rows| == |reached| + |rest| && |Sorted(reached)| == |reached| && InOrder(Sorted(reached))
            && (forall i :: 0 <= i < |reached| ==>
                  var b := Sorted(reached)[i];
                  rows[i] == Placed(b, PlaceIn(reached, b), Tied(reached, b) > 1))
            && (forall i :: 0 <= i < |reached| ==> SaysPlace(rows[i], reached, Sorted(reached)[i]))
            && (forall i :: 0 <= i < |rest| ==>
                  rows[|reached| + i] == Row(None, rest[i].name, None, None, 0, 0, false, rest[i].unreachable))
  {
    var reached := Reached(bundles);
    var keyed := Sorted(reached);
    SortedIsAPermutation(reached, Reachable);
    var placed := GivePlaces(keyed);
    var marked := MarkTies(keyed, placed);
    var others := ListUnreachable(bundles);
    forall i | 0 <= i < |keyed|
      ensures marked[i] == Placed(keyed[i], PlaceIn(reached, keyed[i]), Tied(reached, keyed[i]) > 1)
    {
      SortingKeepsPlaces(reached, keyed[i]);
    }
    forall i | 0 <= i < |keyed|
      ensures SaysPlace(marked[i], reached, keyed[i])
    {
      PlacedSays(reached, keyed[i]);
    }
    rows := marked + others;
  }

  /** No bundle is ranked twice or left out. */
  lemma RankingIsWhole(bundles: seq<Bundle>)
    ensures multiset(Reached(bundles)) + multiset(Keep(bundles, Unreachable)) == multiset(bundles)
    ensures |Sorted(Reached(bundles))| + |Keep(bundles, Unreachable)| == |bundles|
    ensures forall b :: b in Reached(bundles) <==> b in bundles && b.unreachable.None?
    ensures forall b :: b in Keep(bundles, Unreachable) <==> b in bundles && b.unreachable.Some?
  {
    forall b
      ensures b in Reached(bundles) <==> b in bundles && b.unreachable.None?
      ensures b in Keep(bundles, Unreachable) <==> b in bundles && b.unreachable.Some?
    {
      KeepIsExact(bundles, Reachable, b);
      KeepIsExact(bundles, Unreachable, b);
    }
    KeepSplits(bundles, Reachable, Unreachable);
    SortedIsAPermutation(Reached(bundles), Reachable);
  }

  /** Cells that went wrong stay in the denominator: no cell is worth more green than it counts. */
  lemma InconclusiveIsNeverGreen(b: Bundle)
    ensures Finals(b) <= |b.cells| && Firsts(b) <= |b.cells|
    ensures Finals(b) + Count(b.cells, Inconclusive) <= |b.cells|
  {
    NeverBoth(b.cells);
  }

  predicate Inconclusive(c: Cell) { c.inconclusive }

  lemma {:induction false} NeverBoth(cells: seq<Cell>)
    ensures Count(cells, FinalGreen) + Count(cells, Inconclusive) <= |cells|
  {
    if cells != [] { NeverBoth(cells[1..]); }
  }
}
