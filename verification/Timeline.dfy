/** The bounded, newest-first timeline of one task, read page by page while the log goes on growing. */
module Timeline {
  import opened Wrappers
  import opened Collections
  import opened Events
  import opened Reducer
  import opened Runs
  import opened Gateway
  import opened Emitters

  datatype Page = Page(events: seq<Event>, truncated: bool, returned: nat, available: nat)

  const TASK_EVENTS_MAX: int := 200

  /** The numbered events that name a task. */
  function OfTask(task: string): Event -> bool { (ev: Event) => Names(ev, task) && ev.seqNo.Some? }

  function OlderThan(bound: int): Event -> bool { (ev: Event) => ev.seqNo.Some? && ev.seqNo.value < bound }

  /** A task's events, newest first: a stable descending sort is the reverse of an ascending one of the
      reverse. */
  function TaskEvents(view: seq<Event>, task: string): seq<Event> {
    Reverse(SortBySeq(Reverse(Keep(view, OfTask(task)))))
  }

  function Capped(limit: int): (capped: int)
    ensures 1 <= limit <= 200 ==> capped == limit
    ensures limit < 1 ==> capped == 1
    ensures limit > 200 ==> capped == 200
  {
    var least := if limit < TASK_EVENTS_MAX then limit else TASK_EVENTS_MAX;
    if least > 1 then least else 1
  }

  /** One page of a task's timeline. */
  function TaskPage(view: seq<Event>, task: string, limit: int, before: Option<int>): Page {
    var events := TaskEvents(view, task);
    var remaining := if before.None? then events else Keep(events, OlderThan(before.value));
    var capped := Capped(limit);
    var page := if |remaining| <= capped then remaining else remaining[..capped];
    Page(page, |remaining| > |page|, |page|, |events|)
  }

  // ---- the timeline is the task's events -------------------------------------------------------------------

  ghost predicate Descending(s: seq<Event>) {
    forall i, j | 0 <= i < j < |s| :: SortKey(s[i]) > SortKey(s[j])
  }

  lemma DistinctKeep(view: seq<Event>, p: Event -> bool)
    requires DistinctSeqs(view)
    ensures DistinctSeqs(Keep(view, p))
    decreases |view|
  {
    if view != [] {
      var n := |view| - 1;
      DistinctKeep(view[..n], p);
      var front := Keep(view[..n], p);
      forall i | 0 <= i < |front|
        ensures SortKey(front[i]) != SortKey(view[n])
      {
        KeepIsExact(view[..n], p, front[i]);
      }
    }
  }

  lemma TimelineIsPermutation(view: seq<Event>, task: string)
    ensures multiset(TaskEvents(view, task)) == multiset(Keep(view, OfTask(task)))
  {
    var mine := Keep(view, OfTask(task));
    SortSorted(Reverse(mine));
    ReverseIsPermutation(mine);
    ReverseIsPermutation(SortBySeq(Reverse(mine)));
  }

  lemma TimelineDescends(view: seq<Event>, task: string)
    requires DistinctSeqs(view)
    ensures Descending(TaskEvents(view, task))
  {
    var mine := Keep(view, OfTask(task));
    var sorted := SortBySeq(Reverse(mine));
    DistinctKeep(view, OfTask(task));
    SortSorted(Reverse(mine));
    ReverseIsPermutation(mine);
    DistinctIsPermutationInvariant(mine, sorted);
  }

  /** The timeline holds exactly the task's numbered events, each as often as the view does, newest first. */
  lemma TimelineIsExact(view: seq<Event>, task: string)
    requires DistinctSeqs(view)
    ensures Descending(TaskEvents(view, task))
    ensures multiset(TaskEvents(view, task)) == multiset(Keep(view, OfTask(task)))
    ensures forall ev :: ev in TaskEvents(view, task) <==> ev in view && Names(ev, task) && ev.seqNo.Some?
  {
    TimelineDescends(view, task);
    TimelineIsPermutation(view, task);
    forall ev
      ensures ev in TaskEvents(view, task) <==> ev in view && Names(ev, task) && ev.seqNo.Some?
    {
      assert ev in TaskEvents(view, task) <==> ev in multiset(TaskEvents(view, task));
      assert ev in Keep(view, OfTask(task)) <==> ev in multiset(Keep(view, OfTask(task)));
      KeepIsExact(view, OfTask(task), ev);
    }
  }

  /** In whatever order a view lists its events, the timeline is the same. */
  lemma TimelineIgnoresOrder(a: seq<Event>, b: seq<Event>, task: string)
    requires multiset(a) == multiset(b) && DistinctSeqs(a)
    ensures TaskEvents(a, task) == TaskEvents(b, task)
  {
    var mineA, mineB := Keep(a, OfTask(task)), Keep(b, OfTask(task));
    forall ev
      ensures multiset(mineA)[ev] == multiset(mineB)[ev]
    {
      KeepCounts(a, OfTask(task), ev);
      KeepCounts(b, OfTask(task), ev);
    }
    DistinctKeep(a, OfTask(task));
    ReverseIsPermutation(mineA);
    ReverseIsPermutation(mineB);
    SortedToOne(mineA, Reverse(mineA), Reverse(mineB));
  }

  lemma SortedToOne(x: seq<Event>, a: seq<Event>, b: seq<Event>)
    requires DistinctSeqs(x) && multiset(a) == multiset(x) == multiset(b)
    ensures SortBySeq(a) == SortBySeq(b)
  {
    SortSorted(a);
    SortSorted(b);
    DistinctIsPermutationInvariant(x, SortBySeq(a));
    SortedUnique(SortBySeq(a), SortBySeq(b));
  }

  lemma {:induction false} KeepOrdered(log: seq<Event>, p: Event -> bool)
    requires SeqOrdered(log)
    ensures SeqOrdered(Keep(log, p))
    decreases |log|
  {
    if log != [] {
      var n := |log| - 1;
      KeepOrdered(log[..n], p);
      var front := Keep(log[..n], p);
      forall i | 0 <= i < |front|
        ensures SortKey(front[i]) < SortKey(log[n])
      {
        KeepIsExact(log[..n], p, front[i]);
      }
    }
  }

  /** Of a log as the store reads it, the timeline is the task's events backwards. */
  lemma TimelineOfLog(log: seq<Event>, task: string)
    requires SeqOrdered(log)
    ensures TaskEvents(log, task) == Reverse(Keep(log, OfTask(task))) && Descending(TaskEvents(log, task))
  {
    var mine := Keep(log, OfTask(task));
    KeepOrdered(log, OfTask(task));
    ReverseIsPermutation(mine);
    SortSorted(Reverse(mine));
    SortedUnique(mine, SortBySeq(Reverse(mine)));
  }

  /** A page never holds more than 200 events or than was asked for, says how many it holds, and where it promises
      more holds as many as it may. */
  lemma PageSize(view: seq<Event>, task: string, limit: int, before: Option<int>)
    ensures var page := TaskPage(view, task, limit, before);
            && page.returned == |page.events| <= 200 && (limit >= 1 ==> page.returned <= limit)
            && (page.truncated ==> page.returned == if limit < 1 then 1 else if limit > 200 then 200 else limit)
  {
  }

  /** The timeline is as long as the task has events, by their places in the view. */
  lemma TimelineLength(view: seq<Event>, task: string)
    ensures |TaskEvents(view, task)| == |set i | 0 <= i < |view| && view[i].task == Some(task) && view[i].seqNo.Some?|
  {
    var mine := OfTask(task);
    TimelineIsPermutation(view, task);
    assert |TaskEvents(view, task)| == |multiset(TaskEvents(view, task))| == |Keep(view, mine)|;
    KeepIsWhere(view, mine);
    assert Where(view, mine) == set i | 0 <= i < |view| && view[i].task == Some(task) && view[i].seqNo.Some?;
  }

  /** What a page says of itself: its size, and how many events the task has in all, wherever the page was cut. */
  lemma PageCounts(view: seq<Event>, task: string, limit: int, before: Option<int>)
    ensures var page := TaskPage(view, task, limit, before);
            && page.returned == |page.events| <= 200 && (limit >= 1 ==> page.returned <= limit)
            && (page.truncated ==> page.returned == if limit < 1 then 1 else if limit > 200 then 200 else limit)
            && page.available == |set i | 0 <= i < |view| && view[i].task == Some(task) && view[i].seqNo.Some?|
            && page.returned <= page.available
  {
    PageSize(view, task, limit, before);
    TimelineLength(view, task);
  }

  // ---- the log grows under the walk --------------------------------------------------------------------------

  /** Rows alike are the same event, with refusals since counted onto it. */
  lemma {:induction false} KeepAlike(a: seq<Event>, b: seq<Event>, task: string)
    requires Alike(a, b)
    ensures Alike(Keep(a, OfTask(task)), Keep(b, OfTask(task)))
    decreases |a|
  {
    if a != [] {
      var n := |a| - 1;
      assert AlikeRow(a[n], b[n]);
      assert forall i | 0 <= i < n :: AlikeRow(a[i], b[i]);
      KeepAlike(a[..n], b[..n], task);
      assert OfTask(task)(a[n]) == OfTask(task)(b[n]);
    }
  }

  lemma ReverseAlike(a: seq<Event>, b: seq<Event>)
    requires Alike(a, b)
    ensures Alike(Reverse(a), Reverse(b))
  {
    forall i | 0 <= i < |a|
      ensures AlikeRow(Reverse(a)[i], Reverse(b)[i])
    {
      assert AlikeRow(a[|a| - 1 - i], b[|a| - 1 - i]);
    }
  }

  /** A later log has new events in front of the timeline, and behind them the timeline as it was. */
  lemma LaterTimeline(log: seq<Event>, later: seq<Event>, task: string) returns (newer: seq<Event>, same: seq<Event>)
    requires SeqOrdered(log) && SeqOrdered(later) && Extends(log, later)
    ensures TaskEvents(later, task) == newer + same && Alike(TaskEvents(log, task), same)
  {
    var first, more := later[..|log|], later[|log|..];
    assert later == first + more;
    TimelineOfLog(log, task);
    TimelineOfLog(later, task);
    KeepConcat(first, more, OfTask(task));
    newer, same := Reverse(Keep(more, OfTask(task))), Reverse(Keep(first, OfTask(task)));
    ReverseConcat(Keep(first, OfTask(task)), Keep(more, OfTask(task)));
    KeepAlike(log, first, task);
    ReverseAlike(Keep(log, OfTask(task)), Keep(first, OfTask(task)));
  }

  ghost predicate Numbered(s: seq<Event>) { forall i | 0 <= i < |s| :: s[i].seqNo.Some? }

  lemma CursorCuts(whole: seq<Event>, k: nat, i: nat)
    requires Descending(whole) && Numbered(whole) && 0 < k <= |whole| && i < |whole|
    ensures OlderThan(whole[k - 1].seqNo.value)(whole[i]) <==> i >= k
  {
    if i < k - 1 {
      assert SortKey(whole[i]) > SortKey(whole[k - 1]);
    } else if i >= k {
      assert SortKey(whole[k - 1]) > SortKey(whole[i]);
    }
  }

  /** A cursor into the timeline passes over all before it, and keeps all after it. */
  lemma AfterCursor(whole: seq<Event>, k: nat)
    requires Descending(whole) && Numbered(whole) && 0 < k <= |whole|
    ensures Keep(whole, OlderThan(whole[k - 1].seqNo.value)) == whole[k..]
  {
    var older := OlderThan(whole[k - 1].seqNo.value);
    forall i | 0 <= i < |whole|
      ensures older(whole[i]) <==> i >= k
    {
      CursorCuts(whole, k, i);
    }
    KeepCut(whole, k, older);
  }

  function Upto(n: int, total: int): int { if n < total then n else total }

  /** The page after the first `m` events is the next slice of the timeline first seen, whatever has been
      appended or counted since, and is truncated exactly where something is left. */
  lemma PageIsSlice(log: seq<Event>, later: seq<Event>, task: string, limit: int, m: nat)
    requires SeqOrdered(log) && SeqOrdered(later) && Extends(log, later)
    requires 0 < m < |TaskEvents(log, task)|
    ensures var whole, capped := TaskEvents(log, task), Capped(limit);
            var page := TaskPage(later, task, limit, whole[m - 1].seqNo);
            && Alike(whole[m..Upto(m + capped, |whole|)], page.events)
            && (page.truncated <==> m + capped < |whole|)
  {
    var newer, same := LaterTimeline(log, later, task);
    TimelineOfLog(later, task);
    NumberedTimeline(later, task);
    SliceOf(TaskEvents(log, task), TaskEvents(later, task), newer, same, m, Capped(limit));
  }

  lemma NumberedTimeline(log: seq<Event>, task: string)
    requires SeqOrdered(log)
    ensures Numbered(TaskEvents(log, task))
  {
    TimelineOfLog(log, task);
    var mine := Keep(log, OfTask(task));
    forall i | 0 <= i < |mine|
      ensures mine[i].seqNo.Some?
    {
      KeepIsExact(log, OfTask(task), mine[i]);
    }
  }

  lemma SliceOf(whole: seq<Event>, grown: seq<Event>, newer: seq<Event>, same: seq<Event>, m: nat, capped: nat)
    requires grown == newer + same && Alike(whole, same) && 0 < m < |whole|
    requires Descending(grown) && Numbered(grown)
    ensures whole[m - 1].seqNo.Some?
    ensures var rest := Keep(grown, OlderThan(whole[m - 1].seqNo.value));
            var page := if |rest| <= capped then rest else rest[..capped];
            Alike(whole[m..Upto(m + capped, |whole|)], page) && (|rest| > |page| <==> m + capped < |whole|)
  {
    var k := |newer| + m;
    assert AlikeRow(whole[m - 1], same[m - 1]) && grown[k - 1] == same[m - 1];
    AfterCursor(grown, k);
    assert grown[k..] == same[m..];
    assert forall i | m <= i < |whole| :: AlikeRow(whole[i], same[i]);
  }

  // ---- the walk ------------------------------------------------------------------------------------------------

  function Concat(pages: seq<Page>): seq<Event> {
    if pages == [] then [] else Concat(pages[..|pages| - 1]) + pages[|pages| - 1].events
  }

  /** The cursor a reader passes next: the sequence number of the last event it was given. */
  function Cursor(pages: seq<Page>, i: nat): Option<int>
    requires i <= |pages|
  {
    if i == 0 || pages[i - 1].events == [] then None
    else pages[i - 1].events[|pages[i - 1].events| - 1].seqNo
  }

  predicate PageAt(pages: seq<Page>, logs: seq<seq<Event>>, task: string, limit: int, i: nat)
    requires i < |pages| == |logs|
  {
    pages[i] == TaskPage(logs[i], task, limit, Cursor(pages, i))
  }

  /** A log as the store keeps it, grown from an earlier one. */
  ghost predicate Grown(log: seq<Event>, later: seq<Event>) { SeqOrdered(later) && Extends(log, later) }

  /** A reader's pages, each from the log of its own moment. It goes on only where more was promised. */
  ghost predicate Walk(pages: seq<Page>, logs: seq<seq<Event>>, task: string, limit: int) {
    && |logs| == |pages| && pages != [] && SeqOrdered(logs[0])
    && (forall i :: 0 <= i < |logs| ==> Grown(logs[0], logs[i]))
    && (forall i :: 0 <= i < |pages| ==> PageAt(pages, logs, task, limit, i))
    && (forall i :: 0 <= i < |pages| - 1 ==> pages[i].truncated)
  }

  /** The events `k` full pages hold. */
  function Reach(k: nat, capped: nat): nat { if k == 0 then 0 else Reach(k - 1, capped) + capped }

  /** What a walk has read after its last page. */
  ghost predicate ReadUpTo(pages: seq<Page>, whole: seq<Event>, reach: nat) {
    && pages != []
    && Alike(whole[..Upto(reach, |whole|)], Concat(pages))
    && (pages[|pages| - 1].truncated <==> reach < |whole|)
    && (whole != [] ==> pages[|pages| - 1].events != [])
  }

  lemma FirstPage(pages: seq<Page>, log: seq<Event>, task: string, limit: int)
    requires |pages| == 1 && pages[0] == TaskPage(log, task, limit, None)
    ensures ReadUpTo(pages, TaskEvents(log, task), Capped(limit))
  {
    assert pages[..0] == [] && Concat(pages) == [] + pages[0].events == pages[0].events;
    FirstSlice(TaskEvents(log, task), Capped(limit), pages[0].events);
  }

  lemma FirstSlice(whole: seq<Event>, capped: nat, page: seq<Event>)
    requires page == if |whole| <= capped then whole else whole[..capped]
    ensures Alike(whole[..Upto(capped, |whole|)], page)
  {
    assert whole[..|whole|] == whole;
  }

  lemma NextPage(pages: seq<Page>, whole: seq<Event>, reach: nat, page: Page, capped: nat)
    requires ReadUpTo(pages, whole, reach) && reach < |whole| && capped > 0
    requires Alike(whole[reach..Upto(reach + capped, |whole|)], page.events)
    requires page.truncated <==> reach + capped < |whole|
    ensures ReadUpTo(pages + [page], whole, reach + capped)
  {
    assert (pages + [page])[..|pages|] == pages;
    var upto := Upto(reach + capped, |whole|);
    var read := Concat(pages);
    forall i | 0 <= i < upto
      ensures AlikeRow(whole[..upto][i], (read + page.events)[i])
    {
      if i < reach {
        assert AlikeRow(whole[..reach][i], read[i]);
      } else {
        assert AlikeRow(whole[reach..upto][i - reach], page.events[i - reach]);
      }
    }
  }

  lemma PageAtPrefix(pages: seq<Page>, logs: seq<seq<Event>>, task: string, limit: int, i: nat, n: nat)
    requires i < n <= |pages| == |logs| && PageAt(pages, logs, task, limit, i)
    ensures PageAt(pages[..n], logs[..n], task, limit, i)
  {
    assert Cursor(pages[..n], i) == Cursor(pages, i);
  }

  lemma WalkPrefix(pages: seq<Page>, logs: seq<seq<Event>>, task: string, limit: int)
    requires Walk(pages, logs, task, limit) && |pages| > 1
    ensures Walk(pages[..|pages| - 1], logs[..|pages| - 1], task, limit)
  {
    var n := |pages| - 1;
    forall i | 0 <= i < n
      ensures PageAt(pages[..n], logs[..n], task, limit, i)
    {
      assert PageAt(pages, logs, task, limit, i);
      PageAtPrefix(pages, logs, task, limit, i, n);
    }
    forall i | 0 <= i < n
      ensures Grown(logs[..n][0], logs[..n][i])
    {
      assert Grown(logs[0], logs[i]);
    }
  }

  /** A walk of more than one page is a shorter walk and the page after it. */
  lemma WalkStep(pages: seq<Page>, logs: seq<seq<Event>>, task: string, limit: int) returns (n: nat)
    requires Walk(pages, logs, task, limit) && |pages| > 1
    ensures n == |pages| - 1 && pages[..n] + [pages[n]] == pages && pages[n - 1].truncated
    ensures Walk(pages[..n], logs[..n], task, limit)
    ensures SeqOrdered(logs[0]) && Grown(logs[0], logs[n]) && logs[..n][0] == logs[0]
    ensures pages[n] == TaskPage(logs[n], task, limit, Cursor(pages, n))
  {
    n := |pages| - 1;
    WalkPrefix(pages, logs, task, limit);
    assert PageAt(pages, logs, task, limit, n);
  }

  lemma Advance(shorter: seq<Page>, page: Page, log: seq<Event>, later: seq<Event>, task: string, limit: int,
                reach: nat)
    requires SeqOrdered(log) && Grown(log, later)
    requires ReadUpTo(shorter, TaskEvents(log, task), reach) && shorter[|shorter| - 1].truncated && reach > 0
    requires page == TaskPage(later, task, limit, Cursor(shorter, |shorter|))
    ensures ReadUpTo(shorter + [page], TaskEvents(log, task), reach + Capped(limit))
  {
    var whole, read := TaskEvents(log, task), Concat(shorter);
    LastOfConcat(shorter);
    assert AlikeRow(whole[..reach][reach - 1], read[reach - 1]);
    assert Cursor(shorter, |shorter|) == whole[reach - 1].seqNo;
    PageIsSlice(log, later, task, limit, reach);
    NextPage(shorter, whole, reach, page, Capped(limit));
  }

  lemma {:induction false} WalkSoFar(pages: seq<Page>, logs: seq<seq<Event>>, task: string, limit: int)
    requires Walk(pages, logs, task, limit)
    ensures ReadUpTo(pages, TaskEvents(logs[0], task), Reach(|pages|, Capped(limit)))
    decreases |pages|
  {
    if |pages| == 1 {
      assert PageAt(pages, logs, task, limit, 0);
      assert Reach(1, Capped(limit)) == Reach(0, Capped(limit)) + Capped(limit);
      FirstPage(pages, logs[0], task, limit);
    } else {
      var n := WalkStep(pages, logs, task, limit);
      WalkSoFar(pages[..n], logs[..n], task, limit);
      assert Cursor(pages, n) == Cursor(pages[..n], n);
      Advance(pages[..n], pages[n], logs[0], logs[n], task, limit, Reach(n, Capped(limit)));
    }
  }

  lemma LastOfConcat(pages: seq<Page>)
    requires pages != [] && pages[|pages| - 1].events != []
    ensures Concat(pages) != []
    ensures Concat(pages)[|Concat(pages)| - 1] == pages[|pages| - 1].events[|pages[|pages| - 1].events| - 1]
  {
  }

  /** The pages it takes: ceiling(n / clamped limit), and one for an empty timeline. */
  function PagesFor(n: nat, capped: int): int
    requires capped >= 1
  {
    if n == 0 then 1 else (n + capped - 1) / capped
  }

  /** What every walk amounts to. */
  ghost predicate ReadsTheTimeline(pages: seq<Page>, whole: seq<Event>, limit: int) {
    && pages != [] && |Concat(pages)| <= |whole|
    && Alike(whole[..|Concat(pages)|], Concat(pages))
    && (pages[|pages| - 1].truncated <==> |Concat(pages)| < |whole|)
    && |pages| <= PagesFor(|whole|, Capped(limit))
    && (!pages[|pages| - 1].truncated <==> |pages| == PagesFor(|whole|, Capped(limit)))
  }

  /** Every walk reads the timeline of its first moment from the front, with no gap and no repeat, refusals
      counted since apart; it is told there is more exactly while something is left; and it ends, with the
      whole timeline read, after exactly ceiling(n / clamped limit) pages. */
  lemma WalkReadsTheTimeline(pages: seq<Page>, logs: seq<seq<Event>>, task: string, limit: int)
    requires Walk(pages, logs, task, limit)
    ensures ReadsTheTimeline(pages, TaskEvents(logs[0], task), limit)
  {
    var whole, capped, k := TaskEvents(logs[0], task), Capped(limit), |pages|;
    WalkSoFar(pages, logs, task, limit);
    WalkPages(pages, logs, task, limit);
    assert whole[..|whole|] == whole;
    PageCount(|whole|, capped, k);
  }

  /** Where a page follows another, the pages before it had not reached the end. */
  lemma WalkPages(pages: seq<Page>, logs: seq<seq<Event>>, task: string, limit: int)
    requires Walk(pages, logs, task, limit)
    ensures |pages| > 1 ==> Reach(|pages| - 1, Capped(limit)) < |TaskEvents(logs[0], task)|
  {
    if |pages| > 1 {
      var n := WalkStep(pages, logs, task, limit);
      WalkSoFar(pages[..n], logs[..n], task, limit);
    }
  }

  lemma PageCount(n: nat, capped: nat, k: nat)
    requires capped >= 1 && k >= 1 && (k > 1 ==> Reach(k - 1, capped) < n)
    ensures k <= PagesFor(n, capped) && (Reach(k, capped) >= n <==> k == PagesFor(n, capped))
  {
    if n > 0 {
      var need := PagesFor(n, capped);
      CeilingReaches(n, capped);
      if need < k { ReachGrows(need, k - 1, capped); }
      if k < need { ReachGrows(k, need - 1, capped); }
    }
  }

  lemma {:induction false} ReachGrows(i: nat, j: nat, capped: nat)
    requires i <= j
    ensures Reach(i, capped) <= Reach(j, capped)
  {
    if i < j { ReachGrows(i, j - 1, capped); }
  }

  /** The ceiling is the first number of pages to reach `n`. */
  lemma CeilingReaches(n: nat, capped: nat)
    requires n >= 1 && capped >= 1
    ensures var need := PagesFor(n, capped); need >= 1 && Reach(need - 1, capped) < n <= Reach(need, capped)
  {
    var x := n + capped - 1;
    var need := x / capped;
    assert need * capped + x % capped == x;
    if need <= 0 { Below(need, capped); }
    ReachIsProduct(need, capped);
    ReachIsProduct(need - 1, capped);
    Step(need, capped);
  }

  lemma Below(k: int, d: int)
    requires k <= 0 && d >= 1
    ensures k * d <= 0
  {
  }

  /** The logs of one run of emitters, each read at its own moment. */
  ghost predicate Moments(logs: seq<seq<Event>>, c: Config, steps: seq<Step>, cuts: seq<nat>) {
    && |cuts| == |logs|
    && (forall i :: 0 <= i < |cuts| ==> cuts[i] <= |steps| && logs[i] == Run(c, steps[..cuts[i]]).log)
    && (forall i :: 0 <= i < |cuts| ==> cuts[0] <= cuts[i])
  }

  /** While any number of emitters go on writing, coalescing and crashing, a walk reads the timeline. */
  lemma WalkDuringARun(c: Config, steps: seq<Step>, cuts: seq<nat>, pages: seq<Page>, logs: seq<seq<Event>>,
                       task: string, limit: int)
    requires pages != [] && |logs| == |pages| && Moments(logs, c, steps, cuts)
    requires forall i :: 0 <= i < |pages| ==> PageAt(pages, logs, task, limit, i)
    requires forall i :: 0 <= i < |pages| - 1 ==> pages[i].truncated
    ensures ReadsTheTimeline(pages, TaskEvents(logs[0], task), limit)
  {
    forall i | 0 <= i < |logs|
      ensures Grown(logs[0], logs[i])
    {
      var first, until := cuts[0], cuts[i];
      RunKeepsInv(c, steps[..until]);
      LogOnlyGrows(c, steps[..first], steps[first..until]);
      assert steps[..first] + steps[first..until] == steps[..until];
    }
    assert Grown(logs[0], logs[0]);
    WalkReadsTheTimeline(pages, logs, task, limit);
  }

  lemma {:induction false} ReachIsProduct(k: nat, capped: nat)
    ensures Reach(k, capped) == k * capped
  {
    if k > 0 {
      ReachIsProduct(k - 1, capped);
      Step(k, capped);
    }
  }

  lemma Step(k: int, d: int)
    ensures k * d == (k - 1) * d + d
  {
  }
}
