/** The mutable board the reducer works on, and its fold, proved against the functions of `Reducer`. */
module Board {
  import opened Wrappers
  import opened Events
  import opened State
  import opened Legality
  import opened Reducer

  class TaskState {
    const taskId: string
    var status: Status
    var owner: Option<string>
    var dependsOn: set<string>
    var latestReview: Option<Verdict>
    var lastResultRef: Option<string>
    var lastCausingSeq: Option<int>
    var lastCausingEventId: Option<int>
    var lastStatusChangeTs: int
    var escalated: bool
    var triedBy: set<string>
    const taskType: Option<string>
    const readyWhen: Option<int>
    var pruned: bool
    var joinUnsatisfiable: bool
    const title: string
    var priority: Priority
    var blockerReason: Option<string>
    var blockerNeeds: Option<string>

    /** The row this object holds now. */
    function Row(): (row: TaskRow)
      reads this
      ensures row.spec.taskId == taskId
    {
      TaskRow(Spec(taskId, taskType, readyWhen, title), status, owner, dependsOn, latestReview, lastResultRef,
              Trail(lastCausingSeq, lastCausingEventId, lastStatusChangeTs), escalated, triedBy, pruned,
              joinUnsatisfiable, priority, Blocker(blockerReason, blockerNeeds))
    }

    constructor (t: string, ev: Event)
      requires ev.op.Create?
      ensures Row() == FreshRow(t, ev)
    {
      taskId, taskType, readyWhen, title := t, Some(ev.op.taskType), ev.op.readyWhen, ev.op.title;
      status, owner, dependsOn, latestReview, lastResultRef := Created, None, {}, None, None;
      escalated, triedBy, pruned, joinUnsatisfiable := false, {}, false, false;
      priority, blockerReason, blockerNeeds := Normal, None, None;
      lastCausingSeq, lastCausingEventId, lastStatusChangeTs := ev.seqNo, Some(ev.eventId), ev.ts;
    }

    method Stamp(ev: Event)
      modifies this
      ensures Row() == old(Row()).(trail := Stamped(old(Row()).trail, ev))
    {
      lastCausingSeq, lastCausingEventId := ev.seqNo, Some(ev.eventId);
    }

    /** What every move of the status leaves behind: the stamp, and the time of the move. */
    method Change(ev: Event)
      modifies this
      ensures Row() == old(Row()).(trail := Changed(ev))
    {
      Stamp(ev);
      lastStatusChangeTs := ev.ts;
    }

    /** The plan-wide cancel, on this row: the owner and the blocker fields stay. */
    method CancelInPlan(ev: Event)
      modifies this
      ensures Row() == CancelRow(old(Row()), ev)
    {
      status := Cancelled;
      Change(ev);
    }

    /** What the readiness pass writes on a waiting row. */
    method SetJoin(unsatisfiable: bool, fires: bool)
      modifies this
      ensures Row() == var seen := old(Row()).(joinUnsatisfiable := unsatisfiable);
                       if fires then seen.(status := Ready) else seen
    {
      joinUnsatisfiable := unsatisfiable;
      if fires { status := Ready; }
    }

    method MoveTo(next: Status, ev: Event)
      modifies this
      ensures Row() == MoveRow(old(Row()), next, ev)
    {
      status, blockerReason, blockerNeeds := next, None, None;
      Change(ev);
    }

    method GiveTo(worker: string, ev: Event)
      modifies this
      ensures Row() == GiveRow(old(Row()), worker, ev)
    {
      owner, triedBy := Some(worker), triedBy + {worker};
      MoveTo(Assigned, ev);
    }

    method Release(next: Status, ev: Event)
      modifies this
      ensures Row() == ReleaseRow(old(Row()), next, ev)
    {
      owner := None;
      MoveTo(next, ev);
    }

    method StopOn(reason: string, needs: Option<string>, ev: Event)
      modifies this
      ensures Row() == old(Row()).(status := Blocked, blocker := Blocker(Some(reason), needs), trail := Changed(ev))
    {
      status, blockerReason, blockerNeeds := Blocked, Some(reason), needs;
      Change(ev);
    }

    method HandIn(refs: seq<string>, ev: Event)
      modifies this
      ensures Row() == MoveRow(old(Row()).(latestReview := None, lastResultRef := FirstRef(refs)), InReview, ev)
    {
      latestReview, lastResultRef := None, FirstRef(refs);
      MoveTo(InReview, ev);
    }

    method Override(to: OverrideTo, ev: Event)
      modifies this
      ensures Row() == OverrideEffect(old(Row()), to, ev)
    {
      match to {
        case ToDone => MoveTo(Done, ev);
        case ToReopened =>
          if status == InReview {
            latestReview := None;
            Release(Reopened, ev);
          }
        case ToCancelled => Release(Cancelled, ev);
        case ToOther(_) =>
      }
    }

    /** The operations that stamp the row without moving its status. */
    method Mark(ev: Event)
      requires MarksOnly(ev.op)
      modifies this
      ensures Row() == TaskEffect(old(Row()), ev)
    {
      match ev.op {
        case AddDependency(d) => dependsOn := dependsOn + {d}; Stamp(ev);
        case SetPriority(p) => priority := p; Stamp(ev);
        case PassReview => latestReview := Some(Passed); Stamp(ev);
        case FailReview => latestReview := Some(Refuted); Stamp(ev);
        case Escalate => escalated := true; Stamp(ev);
        case Prune =>
          if status != Done && status != Cancelled {
            pruned := true;
            Stamp(ev);
          }
      }
    }

    /** The operations that move the status of an existing task. */
    method Move(ev: Event)
      requires !MarksOnly(ev.op) && !ev.op.Create?
      modifies this
      ensures Row() == TaskEffect(old(Row()), ev)
    {
      match ev.op {
        case Assign(w) => GiveTo(w, ev);
        case Reassign(w) => if Running(status) { GiveTo(w, ev); }
        case Reject => if status == Assigned { Release(Ready, ev); }
        case Accept => if status == Assigned { MoveTo(InProgress, ev); }
        case Block(reason, needs) => if status == InProgress { StopOn(reason, needs, ev); }
        case Unblock => if status == Blocked { MoveTo(InProgress, ev); }
        case PostResult(refs) => HandIn(refs, ev);
        case Override(to, _) => Override(to, ev);
        case Fail => if status == InProgress || status == Blocked { MoveTo(Failed, ev); }
        case _ =>
      }
    }

    /** The effect of an event that names this existing task. */
    method Apply(ev: Event)
      requires !ev.op.Create?
      modifies this
      ensures Row() == TaskEffect(old(Row()), ev)
    {
      if MarksOnly(ev.op) { Mark(ev); } else { Move(ev); }
    }
  }

  /** A board with one row put on it. */
  function WithRow(b: BoardView, t: string, row: TaskRow): BoardView { b.(tasks := b.tasks[t := row]) }

  predicate Wide(op: Op) { op.Create? || op.Register? || op.Revise? }

  /** A board in the middle of the plan-wide cancel of `b`: the rows in `todo` are still to come. */
  ghost predicate PartCancelled(b: BoardView, todo: set<string>, now: BoardView, ev: Event) {
    && now.tasks.Keys == b.tasks.Keys && now.roster == b.roster
    && forall t | t in b.tasks :: now.tasks[t] == if t in todo then b.tasks[t] else CancelRow(b.tasks[t], ev)
  }

  lemma PartCancelledStep(b: BoardView, todo: set<string>, now: BoardView, t: string, ev: Event)
    requires PartCancelled(b, todo, now, ev) && t in todo && t in b.tasks
    ensures PartCancelled(b, todo - {t}, WithRow(now, t, CancelRow(now.tasks[t], ev)), ev)
  {
  }

  lemma PartCancelledEnd(b: BoardView, now: BoardView, ev: Event)
    requires PartCancelled(b, {}, now, ev) && CancelsPlan(ev.op)
    ensures now == Effect(b, ev)
  {
  }

  /** A board between `b` and `goal`: the rows in `todo` are still to come. */
  ghost predicate Between(b: BoardView, goal: BoardView, todo: set<string>, now: BoardView) {
    && now.tasks.Keys == b.tasks.Keys == goal.tasks.Keys && now.roster == b.roster == goal.roster
    && forall t | t in b.tasks :: now.tasks[t] == if t in todo then b.tasks[t] else goal.tasks[t]
  }

  ghost predicate RowDerived(b: BoardView, goal: BoardView, t: string) {
    t in b.tasks && t in goal.tasks && goal.tasks[t] == DeriveRow(b, b.tasks[t])
  }

  /** Every row of `goal` is the derived row. */
  ghost predicate IsDerived(b: BoardView, goal: BoardView) {
    forall t {:trigger RowDerived(b, goal, t)} | t in b.tasks :: RowDerived(b, goal, t)
  }

  /** What the readiness pass reads of a row's dependencies, it does not change. */
  lemma SameReadings(b: BoardView, goal: BoardView, todo: set<string>, now: BoardView, row: TaskRow)
    requires Between(b, goal, todo, now) && IsDerived(b, goal)
    ensures LiveDeps(now, row) == LiveDeps(b, row)
    ensures DoneDeps(now, row) == DoneDeps(b, row)
    ensures DeriveRow(now, row) == DeriveRow(b, row)
  {
    forall t | t in b.tasks
      ensures now.tasks[t].pruned == b.tasks[t].pruned && (now.tasks[t].status == Done <==> b.tasks[t].status == Done)
    {
      assert RowDerived(b, goal, t);
    }
  }

  /** One turn of the readiness loop, whatever has been made ready before it. */
  lemma BetweenStep(b: BoardView, goal: BoardView, todo: set<string>, now: BoardView, t: string)
    requires Between(b, goal, todo, now) && IsDerived(b, goal) && t in todo && t in b.tasks
    ensures Between(b, goal, todo - {t}, WithRow(now, t, DeriveRow(now, now.tasks[t])))
  {
    SameReadings(b, goal, todo, now, b.tasks[t]);
    assert RowDerived(b, goal, t);
  }

  lemma BetweenStart(b: BoardView)
    ensures Between(b, Derive(b), b.tasks.Keys, b) && IsDerived(b, Derive(b))
  {
  }

  lemma BetweenEnd(b: BoardView, goal: BoardView, now: BoardView)
    requires Between(b, goal, {}, now)
    ensures now == goal
  {
  }

  class Board {
    var tasks: map<string, TaskState>
    var roster: set<string>

    ghost function Rows(): set<object>
      reads this
    {
      set t | t in tasks :: tasks[t]
    }

    /** No two ids share a row object, and every row is filed under its own id. */
    ghost predicate Valid()
      reads this
    {
      && (forall s, t | s in tasks && t in tasks && s != t :: tasks[s] != tasks[t])
      && (forall t | t in tasks :: tasks[t].taskId == t)
    }

    function View(): BoardView
      reads this, Rows()
    {
      BoardView(map t | t in tasks :: tasks[t].Row(), roster)
    }

    constructor ()
      ensures Valid() && Rows() == {} && View() == EMPTY_BOARD
    {
      tasks, roster := map[], {};
    }

    method CancelNext(ghost b: BoardView, todo: set<string>, ev: Event) returns (rest: set<string>)
      requires Valid() && todo != {} && todo <= tasks.Keys && PartCancelled(b, todo, View(), ev)
      modifies Rows()
      ensures Valid() && rest < todo && PartCancelled(b, rest, View(), ev)
    {
      var t :| t in todo;
      PartCancelledStep(b, todo, View(), t, ev);
      CancelOne(t, ev);
      rest := todo - {t};
    }

    method CancelAll(ev: Event)
      requires Valid() && CancelsPlan(ev.op)
      modifies Rows()
      ensures Valid()
      ensures View() == Effect(old(View()), ev)
    {
      ghost var before := View();
      var todo := tasks.Keys;
      while todo != {}
        invariant todo <= tasks.Keys && PartCancelled(before, todo, View(), ev)
        decreases todo
      {
        todo := CancelNext(before, todo, ev);
      }
      PartCancelledEnd(before, View(), ev);
    }

    method Enlist(ev: Event)
      requires Valid() && ev.op.Register?
      modifies this
      ensures Valid() && Rows() == old(Rows())
      ensures View() == Effect(old(View()), ev)
    {
      roster := roster + {ev.op.workerId};
    }

    /** Where only one row object is new or has changed, only its row has. */
    twostate lemma OnlyRow(t: string)
      requires t in tasks && roster == old(roster) && tasks.Keys == old(tasks).Keys + {t}
      requires forall u | u in old(tasks) && u != t ::
                 tasks[u] == old(tasks[u]) && tasks[u].Row() == old(tasks[u].Row())
      ensures View() == WithRow(old(View()), t, tasks[t].Row())
    {
    }

    method CancelOne(t: string, ev: Event)
      requires Valid() && t in tasks
      modifies tasks[t]
      ensures View() == WithRow(old(View()), t, CancelRow(old(View()).tasks[t], ev))
    {
      tasks[t].CancelInPlan(ev);
      OnlyRow(t);
    }

    method Put(t: string, ev: Event)
      requires Valid() && ev.op.Create?
      modifies this
      ensures Valid() && fresh(Rows() - old(Rows()))
      ensures View() == WithRow(old(View()), t, FreshRow(t, ev))
    {
      var row := new TaskState(t, ev);
      tasks := tasks[t := row];
      OnlyRow(t);
    }

    method ApplyTo(t: string, ev: Event)
      requires Valid() && !ev.op.Create? && t in tasks
      modifies tasks[t]
      ensures Valid()
      ensures View() == WithRow(old(View()), t, TaskEffect(old(View()).tasks[t], ev))
    {
      tasks[t].Apply(ev);
      OnlyRow(t);
    }

    /** The rules that do not start from a task on the board. */
    method ApplyWide(ev: Event)
      requires Valid() && HasRule(ev.op) && Wide(ev.op)
      modifies this, Rows()
      ensures Valid() && fresh(Rows() - old(Rows()))
      ensures View() == Effect(old(View()), ev)
    {
      if ev.op.Create? {
        if ev.task.Some? { Put(ev.task.value, ev); }
      } else if ev.op.Register? {
        Enlist(ev);
      } else {
        CancelAll(ev);
      }
    }

    /** One turn of the effect loop. */
    method Apply(ev: Event)
      requires Valid()
      modifies this, Rows()
      ensures Valid() && fresh(Rows() - old(Rows()))
      ensures View() == Effect(old(View()), ev)
    {
      if !HasRule(ev.op) {
      } else if Wide(ev.op) {
        ApplyWide(ev);
      } else if ev.task.Some? && ev.task.value in tasks {
        ApplyTo(ev.task.value, ev);
      }
    }

    /** The turn of the readiness loop for one row, which reads the board as it is by now. */
    method DeriveOne(t: string)
      requires Valid() && t in tasks
      modifies tasks[t]
      ensures View() == WithRow(old(View()), t, DeriveRow(old(View()), old(View()).tasks[t]))
    {
      DeriveHere(tasks[t]);
      OnlyRow(t);
    }

    method DeriveHere(here: TaskState)
      modifies here
      ensures here.Row() == DeriveRow(old(View()), old(here.Row()))
    {
      ghost var b, row := View(), here.Row();
      assert Waiting(row) <==> (here.status == Created || here.status == Reopened) && here.owner.None? && !here.pruned;
      if (here.status == Created || here.status == Reopened) && here.owner.None? && !here.pruned {
        if here.dependsOn == {} {
          here.SetJoin(here.joinUnsatisfiable, true);
        } else {
          var required := ResolveK(here.Row());
          here.SetJoin(required > |Live(here)|, |Finished(here)| >= required);
        }
      }
    }

    /** The live dependencies of a row, read off the row objects. */
    function Live(here: TaskState): (live: set<string>)
      reads this, Rows(), here
      ensures live == LiveDeps(View(), here.Row())
    {
      var active := set d | d in here.dependsOn && !(d in tasks && tasks[d].pruned);
      set d | d in active && d in tasks
    }

    /** The done ones among them. */
    function Finished(here: TaskState): (finished: set<string>)
      reads this, Rows(), here
      ensures finished == DoneDeps(View(), here.Row())
    {
      set d | d in Live(here) && tasks[d].status == Done
    }

    /** A turn of the loop takes the board one row further, whichever comes next. */
    method DeriveNext(ghost b: BoardView, ghost goal: BoardView, todo: set<string>) returns (rest: set<string>)
      requires Valid() && todo != {} && todo <= tasks.Keys && Between(b, goal, todo, View()) && IsDerived(b, goal)
      modifies Rows()
      ensures Valid() && rest < todo && Between(b, goal, rest, View())
    {
      var t :| t in todo;
      BetweenStep(b, goal, todo, View(), t);
      DeriveOne(t);
      rest := todo - {t};
    }

    /** The loop, row by row and in no particular order. */
    method DeriveRows(ghost b: BoardView, ghost goal: BoardView)
      requires Valid() && Between(b, goal, tasks.Keys, View()) && IsDerived(b, goal)
      modifies Rows()
      ensures Valid() && Between(b, goal, {}, View())
    {
      var todo := tasks.Keys;
      while todo != {}
        invariant todo <= tasks.Keys && Between(b, goal, todo, View())
        decreases todo
      {
        todo := DeriveNext(b, goal, todo);
      }
    }

    /** The readiness pass, in place and in no particular order: rows already made ready are seen by
        the rows still to come, and it makes no difference. */
    method DerivePass()
      requires Valid()
      modifies Rows()
      ensures Valid()
      ensures View() == Derive(old(View()))
    {
      ghost var before := View();
      BetweenStart(before);
      DeriveRows(before, Derive(before));
      BetweenEnd(before, Derive(before), View());
    }
  }

  /** The reducer: fold the events in seq order on a new board, then derive readiness in place. */
  method Fold(events: seq<Event>) returns (board: Board)
    ensures fresh(board) && fresh(board.Rows()) && board.Valid()
    ensures board.View() == Folded(events)
  {
    var ordered := SortBySeq(events);
    board := new Board();
    for i := 0 to |ordered|
      invariant board.Valid() && fresh(board) && fresh(board.Rows())
      invariant board.View() == Raw(ordered[..i])
    {
      board.Apply(ordered[i]);
      assert ordered[..i + 1][..i] == ordered[..i];
    }
    assert ordered[..|ordered|] == ordered;
    board.DerivePass();
  }
}
