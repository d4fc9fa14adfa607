/** What a phase-two pass leaves and returns, told by the order of its branches and by the answers alone:
    where it stops, what it has taken out by then, and what it writes. */
module PassResults {
  import opened Apis
  import opened Storage
  import opened Passes

  /** What a pass leaves and returns. */
  predicate Leaves(r: Result, tx: Tx, locks: LockTable, done: bool, error: bool)
  {
    r.tx == tx && r.locks == locks && r.done == done && r.error == error
  }

  predicate TimedOut(s: GlobalStatus)
  {
    s in {TimeoutRollingBack, TimeoutRollbackRetrying, TimeoutRolledBack, TimeoutRollbackFailed}
  }

  // Rollback ---------------------------------------------------------------------------------------------

  /** b was reported failed in phase one, and so nobody is asked, or `branchRollback` gives
      PhaseTwoRolledBack for it. */
  predicate Undone(tx: Tx, b: BranchSession, oracle: Oracle)
  {
    (b in tx.report && tx.report[b] == PhaseOneFailed) || oracle(b) == Returned(PhaseTwoRolledBack)
  }

  /** The first branch that is not undone is the k-th, or there is none. */
  predicate RollbackStops(tx: Tx, order: seq<BranchSession>, oracle: Oracle, k: nat)
  {
    && k <= |order| && (forall i :: 0 <= i < k ==> Undone(tx, order[i], oracle))
    && (k < |order| ==> !Undone(tx, order[k], oracle))
  }

  /** The result of a rollback of the branches of `copy` that stops there. */
  predicate RollbackLeaves(r: Result, tx: Tx, locks: LockTable, copy: set<BranchSession>, order: seq<BranchSession>,
                           retrying: bool, oracle: Oracle, k: nat)
    requires k <= |order|
  {
    var front := Members(order[..k]);
    if k < |order| && oracle(order[k]) == Returned(PhaseTwoRollbackFailedCanNotRetry) then  // given up for good
      Leaves(r, tx.(live := false, branches := {}, status := if TimedOut(tx.status) then TimeoutRollbackFailed else RollbackFailed),
             Released(locks, ClaimsOf(copy)), false, true)
    else if k < |order| then  // left for another pass
      Leaves(r, tx.(branches := tx.branches - front,
                    status := if retrying then tx.status
                              else if TimedOut(tx.status) then TimeoutRollbackRetrying
                              else RollbackRetrying),
             Released(locks, ClaimsOf(front)), false, oracle(order[k]).CallError?)
    else if tx.branches <= copy then  // nothing is left
      Leaves(r, tx.(live := false, branches := {}, status := if TimedOut(tx.status) then TimeoutRolledBack else RolledBack),
             Released(locks, ClaimsOf(copy)), true, false)
    else  // what the copy lacks is left
      Leaves(r, tx.(branches := tx.branches - copy), Released(locks, ClaimsOf(copy)), false, false)
  }

  lemma FrontNext(order: seq<BranchSession>, k: nat)
    requires 0 < k <= |order|
    ensures Members(order[..k]) == {order[0]} + Members(order[1..][..k - 1])
  {
    assert order[..k] == [order[0]] + order[1..][..k - 1];
  }

  lemma RollbackStopsNext(tx: Tx, tx': Tx, order: seq<BranchSession>, oracle: Oracle, k: nat)
    requires RollbackStops(tx, order, oracle, k) && k > 0 && tx'.report == tx.report
    ensures RollbackStops(tx', order[1..], oracle, k - 1)
  {
  }

  /** One branch undone in front of the rest. */
  lemma RollbackLeavesNext(r: Result, tx: Tx, locks: LockTable, copy: set<BranchSession>, order: seq<BranchSession>,
                           retrying: bool, oracle: Oracle, k: nat)
    requires 0 < k <= |order| && order[0] in copy
    requires
      var b := order[0];
      RollbackLeaves(r, tx.(branches := tx.branches - {b}), Released(locks, BranchClaims(b)), copy - {b}, order[1..], retrying, oracle, k - 1)
    ensures RollbackLeaves(r, tx, locks, copy, order, retrying, oracle, k)
  {
    var b := order[0];
    FrontNext(order, k);
    var front := Members(order[1..][..k - 1]);
    ReleasedTwice(locks, b, front);
    ReleasedTwice(locks, b, copy - {b});
    assert {b} + (copy - {b}) == copy;
    assert (tx.branches - {b}) - front == tx.branches - ({b} + front);
    assert (tx.branches - {b}) - (copy - {b}) == tx.branches - copy;
    assert tx.branches - {b} <= copy - {b} <==> tx.branches <= copy;
    hide Released, ClaimsOf, BranchClaims, Members;
  }

  lemma RollbackEnds(tx: Tx, locks: LockTable, retrying: bool, oracle: Oracle)
    requires tx.live
    ensures RollbackLeaves(RollbackLoop(tx, locks, Work({}, {}), [], retrying, oracle), tx, locks, {}, [], retrying, oracle, 0)
  {
    assert ClaimsOf({}) == {} && Released(locks, {}) == locks;
    assert tx.branches - {} == tx.branches;
  }

  lemma RollbackStopsHere(tx: Tx, locks: LockTable, copy: set<BranchSession>, order: seq<BranchSession>, retrying: bool, oracle: Oracle)
    requires tx.live && RollbackStops(tx, order, oracle, 0) && order != [] && order[0] in copy
    ensures RollbackLeaves(RollbackLoop(tx, locks, Work(copy, copy), order, retrying, oracle), tx, locks, copy, order, retrying, oracle, 0)
  {
    assert Members(order[..0]) == {} && ClaimsOf({}) == {} && Released(locks, {}) == locks;
    assert tx.branches - {} == tx.branches;
    hide ClaimsOf, Released, Settle;
  }

  lemma UndoneSettles(tx: Tx, locks: LockTable, w: Work, b: BranchSession, retrying: bool, oracle: Oracle)
    requires tx.live && Undone(tx, b, oracle)
    ensures VisitRollback(tx, locks, w, b, retrying, oracle(b)) ==
        Next(tx.(branches := tx.branches - {b}), Released(locks, BranchClaims(b)), Work(w.branches - {b}, w.todo - {b}), GoesOn)
  {
    hide Released, BranchClaims;
  }

  lemma {:induction false} RollbackLoopIs(tx: Tx, locks: LockTable, copy: set<BranchSession>, order: seq<BranchSession>,
                                          retrying: bool, oracle: Oracle, k: nat)
    requires tx.live && Enumerates(order, copy) && RollbackStops(tx, order, oracle, k)
    ensures RollbackLeaves(RollbackLoop(tx, locks, Work(copy, copy), order, retrying, oracle), tx, locks, copy, order, retrying, oracle, k)
    decreases |order|
  {
    hide RollbackLeaves, VisitRollback, Released, BranchClaims;
    if order == [] {
      NothingToDo(copy);
      RollbackEnds(tx, locks, retrying, oracle);
    } else if k == 0 {
      RollbackStopsHere(tx, locks, copy, order, retrying, oracle);
    } else {
      var b := order[0];
      EnumeratesTail(order, copy);
      UndoneSettles(tx, locks, Work(copy, copy), b, retrying, oracle);
      var tx', locks' := tx.(branches := tx.branches - {b}), Released(locks, BranchClaims(b));
      RollbackStopsNext(tx, tx', order, oracle, k);
      hide RollbackStops, Enumerates;
      RollbackLoopIs(tx', locks', copy - {b}, order[1..], retrying, oracle, k - 1);
      var rest := RollbackLoop(tx', locks', Work(copy - {b}, copy - {b}), order[1..], retrying, oracle);
      RollbackLeavesNext(rest, tx, locks, copy, order, retrying, oracle, k);
      SameButLog(rest, CallsFor(tx, b, oracle), tx, locks, copy, order, retrying, oracle, k);
    }
  }

  lemma SameButLog(r: Result, calls: seq<Call>, tx: Tx, locks: LockTable, copy: set<BranchSession>, order: seq<BranchSession>,
                   retrying: bool, oracle: Oracle, k: nat)
    requires k <= |order|
    ensures RollbackLeaves(r, tx, locks, copy, order, retrying, oracle, k) ==> RollbackLeaves(Prepend(calls, r), tx, locks, copy, order, retrying, oracle, k)
    ensures CommitLeaves(r, tx, locks, copy, order, retrying, oracle, k) ==> CommitLeaves(Prepend(calls, r), tx, locks, copy, order, retrying, oracle, k)
  {
    hide Released, ClaimsOf, Uncommitted;
  }

  /** The whole of `doGlobalRollback`, first or retried, with any copy of the branch set: a SAGA branch stops
      it before it begins; else it goes on to the first branch that is not undone. */
  lemma RollbackPassIs(tx: Tx, locks: LockTable, copy: set<BranchSession>, order: seq<BranchSession>, retrying: bool, oracle: Oracle)
    returns (k: nat)
    requires tx.live && Enumerates(order, copy)
    ensures RollbackStops(tx, order, oracle, k)
    ensures
      var r := RollbackPass(tx, locks, copy, order, retrying, oracle);
      if exists b :: b in copy && b.Type == SAGA then Leaves(r, tx, locks, false, true)
      else RollbackLeaves(r, tx, locks, copy, order, retrying, oracle, k)
  {
    k := 0;
    while k < |order| && Undone(tx, order[k], oracle)
      invariant k <= |order| && forall i :: 0 <= i < k ==> Undone(tx, order[i], oracle)
    {
      k := k + 1;
    }
    RollbackLoopIs(tx, locks, copy, order, retrying, oracle, k);
    hide RollbackLeaves, RollbackLoop;
  }

  /** A pass that was found before its session was removed gets no further than its first branch. Only the
      rows of an undone branch go; the status is written all the same, except by a retry that gives up. */
  lemma RollbackOfGone(tx: Tx, locks: LockTable, copy: set<BranchSession>, order: seq<BranchSession>, retrying: bool, oracle: Oracle)
    requires !tx.live && Enumerates(order, copy)
    ensures
      var r := RollbackLoop(tx, locks, Work(copy, copy), order, retrying, oracle);
      if order == [] then
        Leaves(r, tx.(status := if TimedOut(tx.status) then TimeoutRolledBack else RolledBack), locks, false, true)
      else if Undone(tx, order[0], oracle) then
        Leaves(r, tx.(branches := tx.branches - {order[0]}), Released(locks, BranchClaims(order[0])), false, true)
      else if oracle(order[0]) == Returned(PhaseTwoRollbackFailedCanNotRetry) then
        Leaves(r, tx.(status := if TimedOut(tx.status) then TimeoutRollbackFailed else RollbackFailed), locks, false, true)
      else if retrying then Leaves(r, tx, locks, false, oracle(order[0]).CallError?)
      else Leaves(r, tx.(status := if TimedOut(tx.status) then TimeoutRollbackRetrying else RollbackRetrying), locks, false, true)
  {
    hide Released, BranchClaims, ClaimsOf;
  }

  // Commit -------------------------------------------------------------------------------------------------

  /** The pass goes past the i-th branch: it is committed, or its answer is one to go on with, and of the
      copy only branches that commit asynchronously are left. */
  predicate GoesPast(copy: set<BranchSession>, order: seq<BranchSession>, i: nat, retrying: bool, oracle: Oracle)
    requires i < |order|
  {
    var answer := oracle(order[i]);
    || answer == Returned(PhaseTwoCommitted)
    || (answer.Returned? && (retrying || answer.status == PhaseTwoCommitFailedCanNotRetry)
        && forall b :: b in Uncommitted(copy, order[..i], oracle) ==> b.AsyncCommit)
  }

  predicate CommitStops(copy: set<BranchSession>, order: seq<BranchSession>, retrying: bool, oracle: Oracle, k: nat)
  {
    && k <= |order| && (forall i :: 0 <= i < k ==> GoesPast(copy, order, i, retrying, oracle))
    && (k < |order| ==> !GoesPast(copy, order, k, retrying, oracle))
  }

  /** The result of a commit of the branches of `copy` that stops at the k-th. */
  predicate CommitLeaves(r: Result, tx: Tx, locks: LockTable, copy: set<BranchSession>, order: seq<BranchSession>,
                         retrying: bool, oracle: Oracle, k: nat)
    requires k <= |order|
  {
    var left, kept := Uncommitted(tx.branches, order[..k], oracle), Uncommitted(copy, order[..k], oracle);
    if k < |order| && oracle(order[k]) == Returned(PhaseTwoCommitFailedCanNotRetry) then  // given up for good
      Leaves(r, tx.(live := false, branches := {}, status := CommitFailed), Released(locks, ClaimsOf(copy)), false, true)
    else if k < |order| then  // left for another pass
      Leaves(r, tx.(branches := left, status := if retrying then tx.status else CommitRetrying),
             Released(locks, ClaimsOf(copy - kept)), false, oracle(order[k]).CallError?)
    else if left == {} then  // nothing is left
      Leaves(r, tx.(live := false, branches := {}, status := Committed), Released(locks, ClaimsOf(copy)), kept == {}, kept != {})
    else
      Leaves(r, tx.(branches := left), Released(locks, ClaimsOf(copy - kept)), false, false)
  }

  function Without(bs: set<BranchSession>, b: BranchSession, oracle: Oracle): set<BranchSession>
  {
    if oracle(b) == Returned(PhaseTwoCommitted) then bs - {b} else bs
  }

  lemma UncommittedNext(bs: set<BranchSession>, order: seq<BranchSession>, oracle: Oracle, k: nat)
    requires 0 < k <= |order|
    ensures Uncommitted(bs, order[..k], oracle) == Uncommitted(Without(bs, order[0], oracle), order[1..][..k - 1], oracle)
  {
    assert order[..k][1..] == order[1..][..k - 1];
    UncommittedTail(bs, order[..k], oracle);
  }

  lemma CommitStopsNext(copy: set<BranchSession>, order: seq<BranchSession>, retrying: bool, oracle: Oracle, k: nat)
    requires CommitStops(copy, order, retrying, oracle, k) && k > 0
    ensures CommitStops(Without(copy, order[0], oracle), order[1..], retrying, oracle, k - 1)
  {
    hide Uncommitted, Without;
    forall i | 0 < i <= k && i < |order|
      ensures GoesPast(Without(copy, order[0], oracle), order[1..], i - 1, retrying, oracle) <==> GoesPast(copy, order, i, retrying, oracle)
    {
      UncommittedNext(copy, order, oracle, i);
    }
    forall j | 0 <= j < k - 1 ensures GoesPast(Without(copy, order[0], oracle), order[1..], j, retrying, oracle) {
      assert GoesPast(copy, order, j + 1, retrying, oracle);
    }
  }

  /** One branch gone past in front of the rest. */
  lemma CommitLeavesNext(r: Result, tx: Tx, locks: LockTable, copy: set<BranchSession>, order: seq<BranchSession>,
                         retrying: bool, oracle: Oracle, k: nat)
    requires 0 < k <= |order| && order[0] in copy
    requires
      var b := order[0];
      CommitLeaves(r, tx.(branches := Without(tx.branches, b, oracle)),
                   if oracle(b) == Returned(PhaseTwoCommitted) then Released(locks, BranchClaims(b)) else locks,
                   Without(copy, b, oracle), order[1..], retrying, oracle, k - 1)
    ensures CommitLeaves(r, tx, locks, copy, order, retrying, oracle, k)
  {
    var b := order[0];
    UncommittedNext(tx.branches, order, oracle, k);
    UncommittedNext(copy, order, oracle, k);
    var kept := Uncommitted(copy, order[..k], oracle);
    if oracle(b) == Returned(PhaseTwoCommitted) {
      ReleasedTwice(locks, b, copy - {b} - kept);
      ReleasedTwice(locks, b, copy - {b});
      assert b !in kept by { assert order[..k][0] == b; }
      assert {b} + (copy - {b} - kept) == copy - kept && {b} + (copy - {b}) == copy;
    }
    hide Released, ClaimsOf, BranchClaims, Uncommitted;
  }

  lemma NobodyCommitted(bs: set<BranchSession>, oracle: Oracle)
    ensures Uncommitted(bs, [], oracle) == bs
  {
  }

  lemma CommitEnds(tx: Tx, locks: LockTable, copy: set<BranchSession>, retrying: bool, oracle: Oracle)
    requires tx.live
    ensures CommitLeaves(CommitLoop(tx, locks, Work(copy, {}), [], retrying, oracle), tx, locks, copy, [], retrying, oracle, 0)
  {
    NobodyCommitted(tx.branches, oracle);
    NobodyCommitted(copy, oracle);
    assert copy - copy == {} && ClaimsOf({}) == {} && Released(locks, {}) == locks;
    hide Uncommitted, ClaimsOf, Released;
  }

  lemma CommitStopsHere(tx: Tx, locks: LockTable, copy: set<BranchSession>, todo: set<BranchSession>, order: seq<BranchSession>,
                        retrying: bool, oracle: Oracle)
    requires tx.live && order != [] && order[0] in copy && CommitStops(copy, order, retrying, oracle, 0)
    ensures CommitLeaves(CommitLoop(tx, locks, Work(copy, todo), order, retrying, oracle), tx, locks, copy, order, retrying, oracle, 0)
  {
    assert order[..0] == [];
    NobodyCommitted(tx.branches, oracle);
    NobodyCommitted(copy, oracle);
    assert copy - copy == {} && ClaimsOf({}) == {} && Released(locks, {}) == locks;
    hide Uncommitted, ClaimsOf, Released, Settle;
  }

  lemma PastIt(tx: Tx, locks: LockTable, copy: set<BranchSession>, todo: set<BranchSession>, order: seq<BranchSession>,
               retrying: bool, oracle: Oracle)
    requires tx.live && order != [] && GoesPast(copy, order, 0, retrying, oracle)
    ensures
      var b := order[0];
      VisitCommit(tx, locks, Work(copy, todo), b, retrying, oracle(b)) ==
        Next(tx.(branches := Without(tx.branches, b, oracle)),
             if oracle(b) == Returned(PhaseTwoCommitted) then Released(locks, BranchClaims(b)) else locks,
             Work(Without(copy, b, oracle), todo - {b}), GoesOn)
  {
    assert order[..0] == [];
    NobodyCommitted(copy, oracle);
    hide Uncommitted, Released, BranchClaims;
  }

  lemma {:induction false} CommitLoopIs(tx: Tx, locks: LockTable, copy: set<BranchSession>, todo: set<BranchSession>,
                                        order: seq<BranchSession>, retrying: bool, oracle: Oracle, k: nat)
    requires tx.live && todo <= copy && Enumerates(order, todo) && CommitStops(copy, order, retrying, oracle, k)
    ensures CommitLeaves(CommitLoop(tx, locks, Work(copy, todo), order, retrying, oracle), tx, locks, copy, order, retrying, oracle, k)
    decreases |order|
  {
    hide CommitLeaves, VisitCommit, Released, BranchClaims, GoesPast;
    if order == [] {
      NothingToDo(todo);
      CommitEnds(tx, locks, copy, retrying, oracle);
    } else if k == 0 {
      CommitStopsHere(tx, locks, copy, todo, order, retrying, oracle);
    } else {
      var b := order[0];
      EnumeratesTail(order, todo);
      PastIt(tx, locks, copy, todo, order, retrying, oracle);
      CommitStopsNext(copy, order, retrying, oracle, k);
      hide CommitStops, Enumerates;
      var tx' := tx.(branches := Without(tx.branches, b, oracle));
      var locks' := if oracle(b) == Returned(PhaseTwoCommitted) then Released(locks, BranchClaims(b)) else locks;
      var copy' := Without(copy, b, oracle);
      CommitLoopIs(tx', locks', copy', todo - {b}, order[1..], retrying, oracle, k - 1);
      var rest := CommitLoop(tx', locks', Work(copy', todo - {b}), order[1..], retrying, oracle);
      CommitLeavesNext(rest, tx, locks, copy, order, retrying, oracle, k);
      SameButLog(rest, [Call(b, oracle(b))], tx, locks, copy, order, retrying, oracle, k);
    }
  }

  /** The whole of `doGlobalCommit`, first or retried. */
  lemma CommitPassIs(tx: Tx, locks: LockTable, copy: set<BranchSession>, order: seq<BranchSession>, retrying: bool, oracle: Oracle)
    returns (k: nat)
    requires tx.live && Enumerates(order, copy)
    ensures CommitStops(copy, order, retrying, oracle, k)
    ensures
      var r := CommitPass(tx, locks, copy, order, retrying, oracle);
      if exists b :: b in copy && b.Type == SAGA then Leaves(r, tx, locks, false, true)
      else CommitLeaves(r, tx, locks, copy, order, retrying, oracle, k)
  {
    hide GoesPast;
    k := 0;
    while k < |order| && GoesPast(copy, order, k, retrying, oracle)
      invariant k <= |order| && forall i :: 0 <= i < k ==> GoesPast(copy, order, i, retrying, oracle)
    {
      k := k + 1;
    }
    CommitLoopIs(tx, locks, copy, copy, order, retrying, oracle, k);
    hide CommitLeaves, CommitLoop;
  }
}
