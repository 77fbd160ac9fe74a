/** When a join is ready, dependency by dependency: what the threshold of the readiness pass comes to. */
module Readiness {
  import opened Wrappers
  import opened Collections
  import opened State
  import opened Reducer

  /** A dependency that is on the board and not pruned. */
  predicate IsLive(b: BoardView, d: string) { d in b.tasks && !b.tasks[d].pruned }

  /** One that is done besides. */
  predicate IsDone(b: BoardView, d: string) { d in b.tasks && !b.tasks[d].pruned && b.tasks[d].status == Done }

  predicate Among(s: set<string>, deps: set<string>, k: int) { s <= deps && |s| == k }

  /** A positive `ready_when` of a task that has dependencies at all. */
  predicate Counted(row: TaskRow) { row.spec.readyWhen.Some? && row.spec.readyWhen.value >= 1 && row.dependsOn != {} }

  /** Some k of the dependencies are done, where the task says how many; else all of them are. */
  ghost predicate Enough(b: BoardView, row: TaskRow) {
    if Counted(row)
    then exists s :: Among(s, row.dependsOn, row.spec.readyWhen.value) && forall d :: d in s ==> IsDone(b, d)
    else forall d :: d in row.dependsOn ==> IsDone(b, d)
  }

  /** Some k of the dependencies could still be done; else all could. */
  ghost predicate Possible(b: BoardView, row: TaskRow) {
    if Counted(row)
    then exists s :: Among(s, row.dependsOn, row.spec.readyWhen.value) && forall d :: d in s ==> IsLive(b, d)
    else forall d :: d in row.dependsOn ==> IsLive(b, d)
  }

  lemma SomeOf(whole: set<string>, k: nat) returns (s: set<string>)
    requires k <= |whole|
    ensures Among(s, whole, k)
  {
    if k == |whole| {
      s := whole;
    } else {
      var x :| x in whole;
      s := SomeOf(whole - {x}, k);
    }
  }

  lemma AllOrFewer(part: set<string>, whole: set<string>)
    requires part <= whole
    ensures |part| >= |whole| <==> part == whole
  {
    SubsetSize(part, whole);
    if part != whole {
      var x :| x in whole && x !in part;
      SubsetSize(part, whole - {x});
    }
  }

  /** Counting the dependencies of a kind against the threshold is finding that many of them. */
  lemma CountIsChoice(part: set<string>, row: TaskRow)
    requires part <= row.dependsOn
    ensures |part| >= ResolveK(row) || row.dependsOn == {} <==>
            if Counted(row) then exists s :: Among(s, row.dependsOn, row.spec.readyWhen.value) && s <= part
            else part == row.dependsOn
  {
    AllOrFewer(part, row.dependsOn);
    if Counted(row) {
      var k := row.spec.readyWhen.value;
      if |part| >= k {
        var s := SomeOf(part, k);
        assert Among(s, row.dependsOn, k) && s <= part;
      }
      if s :| Among(s, row.dependsOn, k) && s <= part {
        SubsetSize(s, part);
      }
    }
  }

  lemma FiresIffEnough(b: BoardView, row: TaskRow)
    ensures Fires(b, row) <==> Enough(b, row)
  {
    var part := DoneDeps(b, row);
    CountIsChoice(part, row);
    assert forall d :: d in part <==> d in row.dependsOn && IsDone(b, d);
    assert forall s: set<string> :: s <= row.dependsOn ==> (s <= part <==> forall d :: d in s ==> IsDone(b, d));
  }

  lemma CapacityIffPossible(b: BoardView, row: TaskRow)
    ensures |LiveDeps(b, row)| >= ResolveK(row) || row.dependsOn == {} <==> Possible(b, row)
  {
    var part := LiveDeps(b, row);
    CountIsChoice(part, row);
    assert forall d :: d in part <==> d in row.dependsOn && IsLive(b, d);
    assert forall s: set<string> :: s <= row.dependsOn ==> (s <= part <==> forall d :: d in s ==> IsLive(b, d));
  }

  /** A row the pass looks at: new or reopened, unowned, not pruned. */
  predicate Considered(row: TaskRow) {
    (row.status.Created? || row.status.Reopened?) && row.owner.None? && !row.pruned
  }

  /** The readiness pass exactly: a task is shown ready where it already was, or is considered and has enough
      of its dependencies done; the diagnostic of a considered task with dependencies says that not enough
      of them could ever be, and that of any other task is left alone. */
  lemma ReadyExactly(b: BoardView, t: string)
    requires t in b.tasks
    ensures t in Derive(b).tasks
    ensures var row, out := b.tasks[t], Derive(b).tasks[t];
            && (out.status == Ready <==> row.status == Ready || (Considered(row) && Enough(b, row)))
            && (out.status != Ready ==> out.status == row.status)
            && (out.joinUnsatisfiable <==>
                  if Considered(row) && row.dependsOn != {} then !Possible(b, row) else row.joinUnsatisfiable)
  {
    FiresIffEnough(b, b.tasks[t]);
    CapacityIffPossible(b, b.tasks[t]);
    assert Derive(b).tasks[t] == DeriveRow(b, b.tasks[t]);
  }

  /** Without a positive `ready_when`, a considered task is ready exactly when all its dependencies are on the
      board, unpruned and done. */
  lemma WaitsForAll(b: BoardView, t: string)
    requires t in b.tasks && Considered(b.tasks[t])
    requires b.tasks[t].spec.readyWhen.None? || b.tasks[t].spec.readyWhen.value < 1
    ensures Derive(b).tasks[t].status == Ready <==>
            forall d :: d in b.tasks[t].dependsOn ==> d in b.tasks && !b.tasks[d].pruned && b.tasks[d].status == Done
  {
    ReadyExactly(b, t);
    assert forall d :: IsDone(b, d) <==> d in b.tasks && !b.tasks[d].pruned && b.tasks[d].status == Done;
  }
}
