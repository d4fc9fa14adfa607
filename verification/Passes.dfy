/** One phase-two pass run without interference, and what it leaves: `doGlobalCommit` and
    `doGlobalRollback` visit a snapshot of the branch set in whatever order the map gives. */
module Passes {
  import opened Apis
  import opened Storage
  import opened Protocol
  import opened RowCover

  /** What each branch's resource manager would answer, were it asked. */
  type Oracle = BranchSession -> Answer

  datatype Call = Call(b: BranchSession, answer: Answer)

  /** What a pass leaves, what it returns, and the calls it made. */
  datatype Result = Result(tx: Tx, locks: LockTable, done: bool, error: bool, log: seq<Call>)

  function Ending(n: Next, log: seq<Call>): Result
    requires n.outcome.Returns?
  {
    Result(n.tx, n.locks, n.outcome.done, n.outcome.error, log)
  }

  function Prepend(log: seq<Call>, r: Result): Result { r.(log := log + r.log) }

  function CommitLoop(tx: Tx, locks: LockTable, w: Work, order: seq<BranchSession>, retrying: bool, oracle: Oracle): Result
    decreases |order|
  {
    if order == [] then Ending(FinishCommit(tx, locks, w), [])
    else
      var b := order[0];
      var call := [Call(b, oracle(b))];
      var n := VisitCommit(tx, locks, w, b, retrying, oracle(b));
      if n.outcome.Returns? then Ending(n, call)
      else Prepend(call, CommitLoop(n.tx, n.locks, n.work, order[1..], retrying, oracle))
  }

  function RollbackLoop(tx: Tx, locks: LockTable, w: Work, order: seq<BranchSession>, retrying: bool, oracle: Oracle): Result
    decreases |order|
  {
    if order == [] then Ending(FinishRollback(tx, locks, w), [])
    else
      var b := order[0];
      var call := CallsFor(tx, b, oracle);
      var n := VisitRollback(tx, locks, w, b, retrying, oracle(b));
      if n.outcome.Returns? then Ending(n, call)
      else Prepend(call, RollbackLoop(n.tx, n.locks, n.work, order[1..], retrying, oracle))
  }

  function CallsFor(tx: Tx, b: BranchSession, oracle: Oracle): seq<Call>
  {
    if NeedsNoCall(tx, b) then [] else [Call(b, oracle(b))]
  }

  /** One round of the loop. */
  lemma CommitNext(tx: Tx, locks: LockTable, w: Work, order: seq<BranchSession>, i: nat, retrying: bool, oracle: Oracle, log: seq<Call>)
    requires i < |order|
    ensures
      var n := VisitCommit(tx, locks, w, order[i], retrying, oracle(order[i]));
      var log' := log + [Call(order[i], oracle(order[i]))];
      Prepend(log, CommitLoop(tx, locks, w, order[i..], retrying, oracle)) ==
        if n.outcome.Returns? then Ending(n, log')
        else Prepend(log', CommitLoop(n.tx, n.locks, n.work, order[i + 1..], retrying, oracle))
  {
    assert order[i..][1..] == order[i + 1..];
    var n := VisitCommit(tx, locks, w, order[i], retrying, oracle(order[i]));
    if n.outcome.GoesOn? {
      var rest := CommitLoop(n.tx, n.locks, n.work, order[i + 1..], retrying, oracle).log;
      assert log + ([Call(order[i], oracle(order[i]))] + rest) == log + [Call(order[i], oracle(order[i]))] + rest;
    }
  }

  lemma KeepsReport(tx: Tx, locks: LockTable, w: Work, b: BranchSession, retrying: bool, answer: Answer)
    ensures VisitRollback(tx, locks, w, b, retrying, answer).tx.report == tx.report
  {
  }

  lemma RollbackNext(tx: Tx, locks: LockTable, w: Work, order: seq<BranchSession>, i: nat, retrying: bool, oracle: Oracle, log: seq<Call>)
    requires i < |order|
    ensures
      var n := VisitRollback(tx, locks, w, order[i], retrying, oracle(order[i]));
      var log' := log + CallsFor(tx, order[i], oracle);
      n.tx.report == tx.report
      && Prepend(log, RollbackLoop(tx, locks, w, order[i..], retrying, oracle)) ==
        if n.outcome.Returns? then Ending(n, log')
        else Prepend(log', RollbackLoop(n.tx, n.locks, n.work, order[i + 1..], retrying, oracle))
  {
    KeepsReport(tx, locks, w, order[i], retrying, oracle(order[i]));
    hide VisitRollback;
    assert order[i..][1..] == order[i + 1..];
    var n := VisitRollback(tx, locks, w, order[i], retrying, oracle(order[i]));
    if n.outcome.GoesOn? {
      var call := CallsFor(tx, order[i], oracle);
      var rest := RollbackLoop(n.tx, n.locks, n.work, order[i + 1..], retrying, oracle).log;
      assert log + (call + rest) == log + call + rest;
    }
  }

  /** `doGlobalCommit` on a fresh copy of the stored branch set. */
  function CommitPass(tx: Tx, locks: LockTable, bs: set<BranchSession>, order: seq<BranchSession>, retrying: bool, oracle: Oracle): Result
  {
    if HasSaga(bs) then Result(tx, locks, false, true, []) else CommitLoop(tx, locks, Work(bs, bs), order, retrying, oracle)
  }

  function RollbackPass(tx: Tx, locks: LockTable, bs: set<BranchSession>, order: seq<BranchSession>, retrying: bool, oracle: Oracle): Result
  {
    if HasSaga(bs) then Result(tx, locks, false, true, []) else RollbackLoop(tx, locks, Work(bs, bs), order, retrying, oracle)
  }

  // The measure -----------------------------------------------------------------------------------------

  function Positive(log: seq<Call>, status: BranchStatus): set<BranchSession>
  {
    set c | c in log && c.answer == Returned(status) :: c.b
  }

  predicate AllPositive(log: seq<Call>, status: BranchStatus)
  {
    forall c :: c in log ==> c.answer == Returned(status)
  }

  lemma EnumeratesTail(order: seq<BranchSession>, bs: set<BranchSession>)
    requires Enumerates(order, bs) && order != []
    ensures order[0] in bs && Enumerates(order[1..], bs - {order[0]})
  {
    forall b | b in order[1..] ensures b in bs - {order[0]} {
      assert b in order;
    }
  }

  /** The pass moves past b, and only then forgets it. */
  lemma VisitTodo(tx: Tx, locks: LockTable, w: Work, b: BranchSession, retrying: bool, answer: Answer)
    requires b in w.todo && w.todo <= w.branches
    ensures
      var n := VisitCommit(tx, locks, w, b, retrying, answer);
      n.outcome.GoesOn? ==> n.work.todo == w.todo - {b} && n.work.todo <= n.work.branches
    ensures
      var n := VisitRollback(tx, locks, w, b, retrying, answer);
      n.outcome.GoesOn? ==> n.work.todo == w.todo - {b} && n.work.todo <= n.work.branches
  {
  }

  lemma PositivePrepend(c: Call, log: seq<Call>, status: BranchStatus)
    ensures Positive([c] + log, status) == Positive(log, status) + (if c.answer == Returned(status) then {c.b} else {})
    ensures AllPositive([c] + log, status) <==> c.answer == Returned(status) && AllPositive(log, status)
  {
    var whole := [c] + log;
    assert whole[0] == c && whole[1..] == log;
    forall d | d in log ensures d in whole {
    }
  }

  lemma PositiveSingle(c: Call, status: BranchStatus)
    ensures Positive([c], status) == if c.answer == Returned(status) then {c.b} else {}
    ensures AllPositive([c], status) <==> c.answer == Returned(status)
  {
    assert [c][0] == c;
  }

  /** One visit takes b out of the store and of the copy, or nothing; a pass that stops without removing
      the transaction takes nothing. */
  predicate TakesOut(tx: Tx, n: Next, taken: set<BranchSession>)
  {
    && (n.outcome.GoesOn? ==> n.tx.live && n.work.branches == n.tx.branches == tx.branches - taken)
    && (n.outcome.Returns? && n.tx.live ==> n.tx.branches == tx.branches && taken == {})
  }

  lemma CommitTakesOut(tx: Tx, locks: LockTable, w: Work, b: BranchSession, retrying: bool, answer: Answer)
    requires tx.live && w.branches == tx.branches
    ensures TakesOut(tx, VisitCommit(tx, locks, w, b, retrying, answer), if answer == Returned(PhaseTwoCommitted) then {b} else {})
    ensures answer == Returned(PhaseTwoCommitted) ==> VisitCommit(tx, locks, w, b, retrying, answer).outcome.GoesOn?
  {
  }

  lemma RollbackTakesOut(tx: Tx, locks: LockTable, w: Work, b: BranchSession, retrying: bool, answer: Answer)
    requires tx.live && w.branches == tx.branches
    ensures TakesOut(tx, VisitRollback(tx, locks, w, b, retrying, answer),
                     if NeedsNoCall(tx, b) || answer == Returned(PhaseTwoRolledBack) then {b} else {})
    ensures VisitRollback(tx, locks, w, b, retrying, answer).outcome.GoesOn? ==>
        NeedsNoCall(tx, b) || answer == Returned(PhaseTwoRolledBack)
  {
  }

  /** Every commit pass over the stored branches takes out of the store exactly those it got
      PhaseTwoCommitted for, unless it removes the transaction. */
  lemma {:induction false} CommitPassShrinks(tx: Tx, locks: LockTable, w: Work, order: seq<BranchSession>, retrying: bool, oracle: Oracle)
    requires tx.live && w.branches == tx.branches && Enumerates(order, w.todo) && w.todo <= w.branches
    ensures
      var r := CommitLoop(tx, locks, w, order, retrying, oracle);
      && Positive(r.log, PhaseTwoCommitted) <= tx.branches
      && (r.tx.live ==> r.tx.branches == tx.branches - Positive(r.log, PhaseTwoCommitted))
    decreases |order|
  {
    if order != [] {
      var b := order[0];
      var n := VisitCommit(tx, locks, w, b, retrying, oracle(b));
      EnumeratesTail(order, w.todo);
      CommitTakesOut(tx, locks, w, b, retrying, oracle(b));
      PositiveSingle(Call(b, oracle(b)), PhaseTwoCommitted);
      if n.outcome.GoesOn? {
        VisitTodo(tx, locks, w, b, retrying, oracle(b));
        var rest := CommitLoop(n.tx, n.locks, n.work, order[1..], retrying, oracle);
        CommitPassShrinks(n.tx, n.locks, n.work, order[1..], retrying, oracle);
        PositivePrepend(Call(b, oracle(b)), rest.log, PhaseTwoCommitted);
      }
    }
  }

  /** A rollback pass also takes out the branches it needs no call for. */
  lemma {:induction false} RollbackPassShrinks(tx: Tx, locks: LockTable, w: Work, order: seq<BranchSession>, retrying: bool, oracle: Oracle)
    requires tx.live && w.branches == tx.branches && Enumerates(order, w.todo) && w.todo <= w.branches
    ensures
      var r := RollbackLoop(tx, locks, w, order, retrying, oracle);
      && Positive(r.log, PhaseTwoRolledBack) <= tx.branches
      && (r.tx.live ==> r.tx.branches <= tx.branches - Positive(r.log, PhaseTwoRolledBack))
    decreases |order|
  {
    hide VisitRollback, Enumerates;
    if order != [] {
      var b := order[0];
      hide Positive;
      var n := VisitRollback(tx, locks, w, b, retrying, oracle(b));
      EnumeratesTail(order, w.todo);
      RollbackTakesOut(tx, locks, w, b, retrying, oracle(b));
      PositiveSingle(Call(b, oracle(b)), PhaseTwoRolledBack);
      if n.outcome.GoesOn? {
        VisitTodo(tx, locks, w, b, retrying, oracle(b));
        var rest := RollbackLoop(n.tx, n.locks, n.work, order[1..], retrying, oracle);
        RollbackPassShrinks(n.tx, n.locks, n.work, order[1..], retrying, oracle);
        PositivePrepend(Call(b, oracle(b)), rest.log, PhaseTwoRolledBack);
        assert [] + rest.log == rest.log;
      }
    }
  }

  /** The strict measure: a pass that got one positive answer shrinks the stored branch set or removes
      the transaction. */
  lemma PositiveAnswerShrinks(tx: Tx, locks: LockTable, order: seq<BranchSession>, retrying: bool, oracle: Oracle)
    requires tx.live && Enumerates(order, tx.branches)
    ensures
      var r := CommitPass(tx, locks, tx.branches, order, retrying, oracle);
      Positive(r.log, PhaseTwoCommitted) != {} ==> !r.tx.live || |r.tx.branches| < |tx.branches|
    ensures
      var r := RollbackPass(tx, locks, tx.branches, order, retrying, oracle);
      Positive(r.log, PhaseTwoRolledBack) != {} ==> !r.tx.live || |r.tx.branches| < |tx.branches|
  {
    var w := Work(tx.branches, tx.branches);
    var c, d := CommitLoop(tx, locks, w, order, retrying, oracle), RollbackLoop(tx, locks, w, order, retrying, oracle);
    CommitPassShrinks(tx, locks, w, order, retrying, oracle);
    RollbackPassShrinks(tx, locks, w, order, retrying, oracle);
    if c.tx.live {
      SmallerSet(c.tx.branches, tx.branches, Positive(c.log, PhaseTwoCommitted));
    }
    if d.tx.live {
      SmallerSet(d.tx.branches, tx.branches, Positive(d.log, PhaseTwoRolledBack));
    }
  }

  lemma SmallerSet(a: set<BranchSession>, b: set<BranchSession>, taken: set<BranchSession>)
    requires a <= b - taken && taken <= b
    ensures taken != {} ==> |a| < |b|
  {
    SubsetSize(a, b - taken);
    assert b == (b - taken) + taken;
  }

  lemma {:induction false} SubsetSize(a: set<BranchSession>, b: set<BranchSession>)
    requires a <= b
    ensures |a| <= |b|
  {
    if x :| x in a {
      SubsetSize(a - {x}, b - {x});
    }
  }

  lemma SettleKeeps(tx: Tx, locks: LockTable, w: Work, b: BranchSession)
    requires CoveredBy(locks, tx.Tid(), tx.branches) && tx.live && w == Work(tx.branches, tx.branches)
    ensures
      var n := Settle(tx, locks, w, b);
      CoveredBy(n.locks, tx.Tid(), n.tx.branches) && n.tx.live && n.tx.session == tx.session && n.tx.status == tx.status
      && n.work == Work(n.tx.branches, n.tx.branches)
  {
    ReleaseBranch(locks, tx.Tid(), tx.branches, b);
  }

  lemma FinishRemoves(tx: Tx, locks: LockTable)
    requires CoveredBy(locks, tx.Tid(), {}) && tx.live && tx.branches == {}
    ensures
      var n := FinishCommit(tx, locks, Work({}, {}));
      n.outcome == Returns(true, false) && !n.tx.live && n.tx.status == Committed && OwnsNoRow(n.locks, tx.Tid())
    ensures
      var n := FinishRollback(tx, locks, Work({}, {}));
      n.outcome == Returns(true, false) && !n.tx.live && OwnsNoRow(n.locks, tx.Tid())
      && n.tx.status == if IsTimeoutStatus(tx.status) then TimeoutRolledBack else RolledBack
  {
    ReleaseKeeps(locks, ClaimsOf({}), tx.Tid(), {});
  }

  /** A commit pass with only positive answers removes the transaction and every row it holds. */
  lemma {:induction false} AllCommittedRemoves(tx: Tx, locks: LockTable, order: seq<BranchSession>, retrying: bool, oracle: Oracle)
    requires CoveredBy(locks, tx.Tid(), tx.branches) && tx.live && Enumerates(order, tx.branches)
    ensures
      var r := CommitLoop(tx, locks, Work(tx.branches, tx.branches), order, retrying, oracle);
      AllPositive(r.log, PhaseTwoCommitted) ==>
        r.done && !r.error && !r.tx.live && r.tx.status == Committed && OwnsNoRow(r.locks, tx.Tid())
    decreases |order|
  {
    var w := Work(tx.branches, tx.branches);
    if order == [] {
      assert tx.branches == {};
      FinishRemoves(tx, locks);
    } else {
      var b := order[0];
      PositiveSingle(Call(b, oracle(b)), PhaseTwoCommitted);
      EnumeratesTail(order, tx.branches);
      var n := VisitCommit(tx, locks, w, b, retrying, oracle(b));
      if n.outcome.GoesOn? {
        PositivePrepend(Call(b, oracle(b)), CommitLoop(n.tx, n.locks, n.work, order[1..], retrying, oracle).log, PhaseTwoCommitted);
      }
      if oracle(b) == Returned(PhaseTwoCommitted) {
        SettleKeeps(tx, locks, w, b);
        AllCommittedRemoves(n.tx, n.locks, order[1..], retrying, oracle);
      }
    }
  }

  /** A rollback pass with only positive answers does the same. */
  lemma {:induction false} AllRolledBackRemoves(tx: Tx, locks: LockTable, order: seq<BranchSession>, retrying: bool, oracle: Oracle)
    requires CoveredBy(locks, tx.Tid(), tx.branches) && tx.live && Enumerates(order, tx.branches)
    ensures
      var r := RollbackLoop(tx, locks, Work(tx.branches, tx.branches), order, retrying, oracle);
      AllPositive(r.log, PhaseTwoRolledBack) ==>
        r.done && !r.error && !r.tx.live && OwnsNoRow(r.locks, tx.Tid())
        && r.tx.status == if IsTimeoutStatus(tx.status) then TimeoutRolledBack else RolledBack
    decreases |order|
  {
    var w := Work(tx.branches, tx.branches);
    if order == [] {
      assert tx.branches == {};
      FinishRemoves(tx, locks);
    } else {
      var b := order[0];
      PositiveSingle(Call(b, oracle(b)), PhaseTwoRolledBack);
      EnumeratesTail(order, tx.branches);
      var n := VisitRollback(tx, locks, w, b, retrying, oracle(b));
      if n.outcome.GoesOn? {
        var log := RollbackLoop(n.tx, n.locks, n.work, order[1..], retrying, oracle).log;
        PositivePrepend(Call(b, oracle(b)), log, PhaseTwoRolledBack);
        assert [] + log == log;
      }
      if NeedsNoCall(tx, b) || oracle(b) == Returned(PhaseTwoRolledBack) {
        SettleKeeps(tx, locks, w, b);
        AllRolledBackRemoves(n.tx, n.locks, order[1..], retrying, oracle);
      }
    }
  }

  // The first pass of a commit --------------------------------------------------------------------------

  /** Every call is answered so that the first pass goes on: committed, or given up when no branch that has
      to be synchronous is left. */
  predicate GoesThrough(order: seq<BranchSession>, oracle: Oracle)
  {
    forall i :: 0 <= i < |order| ==>
      oracle(order[i]) == Returned(PhaseTwoCommitted)
      || (oracle(order[i]) == Returned(PhaseTwoCommitFailedCanNotRetry) && forall j :: i <= j < |order| ==> order[j].AsyncCommit)
  }

  /** The stored branches that the pass does not commit. */
  function Uncommitted(bs: set<BranchSession>, order: seq<BranchSession>, oracle: Oracle): set<BranchSession>
  {
    set b | b in bs && !(b in order && oracle(b) == Returned(PhaseTwoCommitted))
  }

  /** What the first pass leaves: it comes to its end exactly when it goes through, and then removes the
      transaction if nothing is left, and else leaves it as it is; otherwise it hands the transaction to the
      retry loop or removes it as failed. */
  predicate FirstPassLeaves(tx: Tx, r: Result, order: seq<BranchSession>, oracle: Oracle)
  {
    var left := Uncommitted(tx.branches, order, oracle);
    if !GoesThrough(order, oracle) then (r.tx.live && r.tx.status == CommitRetrying) || (!r.tx.live && r.tx.status == CommitFailed)
    else if left == {} then r.tx == Removed(tx.(status := Committed))
    else r.tx == tx.(branches := left)
  }

  lemma GoesThroughHead(order: seq<BranchSession>, oracle: Oracle)
    requires order != []
    ensures GoesThrough(order, oracle) <==>
        GoesThrough(order[1..], oracle)
        && (oracle(order[0]) == Returned(PhaseTwoCommitted)
            || (oracle(order[0]) == Returned(PhaseTwoCommitFailedCanNotRetry) && forall b :: b in order ==> b.AsyncCommit))
  {
    if GoesThrough(order, oracle) {
      forall i | 0 <= i < |order| - 1
        ensures oracle(order[1..][i]) == Returned(PhaseTwoCommitted)
                || (oracle(order[1..][i]) == Returned(PhaseTwoCommitFailedCanNotRetry) && forall j :: i <= j < |order| - 1 ==> order[1..][j].AsyncCommit)
      {
        assert order[1..][i] == order[i + 1];
        forall j | i <= j < |order| - 1 && oracle(order[i + 1]) != Returned(PhaseTwoCommitted) ensures order[1..][j].AsyncCommit {
          assert order[1..][j] == order[j + 1];
        }
      }
    }
    if GoesThrough(order[1..], oracle) {
      forall i | 1 <= i < |order|
        ensures oracle(order[i]) == Returned(PhaseTwoCommitted)
                || (oracle(order[i]) == Returned(PhaseTwoCommitFailedCanNotRetry) && forall j :: i <= j < |order| ==> order[j].AsyncCommit)
      {
        assert order[i] == order[1..][i - 1];
        forall j | i <= j < |order| && oracle(order[i]) != Returned(PhaseTwoCommitted) ensures order[j].AsyncCommit {
          assert order[j] == order[1..][j - 1];
        }
      }
    }
  }

  lemma UncommittedTail(bs: set<BranchSession>, order: seq<BranchSession>, oracle: Oracle)
    requires order != []
    ensures
      var b := order[0];
      Uncommitted(bs, order, oracle) == Uncommitted(if oracle(b) == Returned(PhaseTwoCommitted) then bs - {b} else bs, order[1..], oracle)
  {
    assert order == [order[0]] + order[1..];
  }

  lemma {:induction false} FirstPass(tx: Tx, locks: LockTable, w: Work, order: seq<BranchSession>, oracle: Oracle)
    requires tx.live && w.branches <= tx.branches && Enumerates(order, w.todo) && w.todo <= w.branches
    requires AllAsync(w.branches - w.todo)
    ensures FirstPassLeaves(tx, CommitLoop(tx, locks, w, order, false, oracle), order, oracle)
    decreases |order|
  {
    if order == [] {
      assert Uncommitted(tx.branches, order, oracle) == tx.branches;
    } else {
      var b := order[0];
      var n := VisitCommit(tx, locks, w, b, false, oracle(b));
      EnumeratesTail(order, w.todo);
      GoesThroughHead(order, oracle);
      UncommittedTail(tx.branches, order, oracle);
      assert AllAsync(w.branches) <==> forall c :: c in order ==> c.AsyncCommit by {
        assert w.branches == (w.branches - w.todo) + w.todo;
      }
      if n.outcome.GoesOn? {
        VisitTodo(tx, locks, w, b, false, oracle(b));
        assert AllAsync(n.work.branches - n.work.todo);
        hide GoesThrough, Uncommitted, Enumerates;
        FirstPass(n.tx, n.locks, n.work, order[1..], oracle);
      }
    }
  }

  // The first pass of a rollback ------------------------------------------------------------------------

  lemma NothingToDo(todo: set<BranchSession>)
    requires Enumerates([], todo)
    ensures todo == {}
  {
  }

  lemma SettleDoes(tx: Tx, locks: LockTable, w: Work, b: BranchSession)
    requires tx.live && w.branches == w.todo && b in w.todo && w.todo <= tx.branches
    ensures
      var n := Settle(tx, locks, w, b);
      && n.outcome.GoesOn? && n.tx.live && n.tx.status == tx.status && n.work.branches == n.work.todo == w.todo - {b}
      && n.work.todo <= n.tx.branches && (n.work.todo == n.tx.branches <==> w.todo == tx.branches)
      && forall c :: NeedsNoCall(n.tx, c) <==> NeedsNoCall(tx, c)
  {
    assert tx.branches == (tx.branches - {b}) + {b} && w.todo == (w.todo - {b}) + {b};
    hide Released;
  }

  lemma Settles(tx: Tx, locks: LockTable, w: Work, b: BranchSession, answer: Answer)
    requires NeedsNoCall(tx, b) || answer == Returned(PhaseTwoRolledBack)
    ensures VisitRollback(tx, locks, w, b, false, answer) == Settle(tx, locks, w, b)
  {
  }

  lemma NotSettled(tx: Tx, locks: LockTable, w: Work, b: BranchSession, answer: Answer)
    requires tx.status == RollingBack && answer != Returned(PhaseTwoRolledBack)
    ensures
      var n := AnswerRollback(tx, locks, w, b, false, answer);
      n.outcome.Returns? && n.tx.status != RolledBack
  {
    hide Released, ClaimsOf;
  }

  /** It rolls the transaction back if and only if every branch it has to visit is settled and no other is
      stored. */
  lemma {:induction false} FirstRollback(tx: Tx, locks: LockTable, w: Work, order: seq<BranchSession>, oracle: Oracle)
    requires tx.live && tx.status == RollingBack && w.branches == w.todo && w.todo <= tx.branches && Enumerates(order, w.todo)
    ensures
      var r := RollbackLoop(tx, locks, w, order, false, oracle);
      && (r.tx.status == RolledBack ==> !r.error)
      && (r.tx.status == RolledBack <==>
            w.todo == tx.branches && forall b :: b in w.todo ==> NeedsNoCall(tx, b) || oracle(b) == Returned(PhaseTwoRolledBack))
    decreases |order|
  {
    hide Settle, AnswerRollback, Enumerates, NeedsNoCall;
    if order == [] {
      assert w.todo == {} by { NothingToDo(w.todo); }
    } else {
      var b := order[0];
      EnumeratesTail(order, w.todo);
      if NeedsNoCall(tx, b) || oracle(b) == Returned(PhaseTwoRolledBack) {
        var n := Settle(tx, locks, w, b);
        SettleDoes(tx, locks, w, b);
        Settles(tx, locks, w, b, oracle(b));
        FirstRollback(n.tx, n.locks, n.work, order[1..], oracle);
      } else {
        NotSettled(tx, locks, w, b, oracle(b));
      }
    }
  }

  // The asynchronous pass -----------------------------------------------------------------------------

  function Remaining(bs: set<BranchSession>, oracle: Oracle): set<BranchSession>
  {
    set b | b in bs && oracle(b) != Returned(PhaseTwoCommitted)
  }

  /** What an asynchronous pass leaves, told without an order. */
  function AsyncOutcome(tx: Tx, locks: LockTable, oracle: Oracle): (Tx, LockTable, bool)
  {
    var left := Remaining(tx.branches, oracle);
    var locks' := Released(locks, ClaimsOf(tx.branches - left));
    if left == {} then (Removed(tx.(status := Committed)), locks', true)
    else (tx.(branches := left), locks', false)
  }

  lemma ReleasedTwice(locks: LockTable, b: BranchSession, bs: set<BranchSession>)
    ensures Released(Released(locks, BranchClaims(b)), ClaimsOf(bs)) == Released(locks, ClaimsOf({b} + bs))
  {
    forall c ensures c in ClaimsOf({b} + bs) <==> c in BranchClaims(b) || c in ClaimsOf(bs) {
    }
  }

  /** The outcome from the middle of the pass: of the branches not yet visited, those answered
      PhaseTwoCommitted leave; all others stay. */
  function AsyncRest(tx: Tx, locks: LockTable, todo: set<BranchSession>, oracle: Oracle): (Tx, LockTable, bool)
  {
    var left := tx.branches - todo + Remaining(todo, oracle);
    var locks' := Released(locks, ClaimsOf(todo - Remaining(todo, oracle)));
    if left == {} then (Removed(tx.(status := Committed)), locks', true) else (tx.(branches := left), locks', false)
  }

  lemma AsyncVisit(tx: Tx, locks: LockTable, w: Work, b: BranchSession, oracle: Oracle)
    requires tx.live && AllAsync(tx.branches) && w.branches == tx.branches && b in w.todo && w.todo <= w.branches
    requires !oracle(b).CallError?
    ensures
      var n := VisitCommit(tx, locks, w, b, true, oracle(b));
      n.outcome.GoesOn? && n.tx.live && n.work.branches == n.tx.branches && AllAsync(n.tx.branches)
      && AsyncRest(n.tx, n.locks, w.todo - {b}, oracle) == AsyncRest(tx, locks, w.todo, oracle)
  {
    var todo' := w.todo - {b};
    if oracle(b) == Returned(PhaseTwoCommitted) {
      ReleasedTwice(locks, b, todo' - Remaining(todo', oracle));
      assert {b} + (todo' - Remaining(todo', oracle)) == w.todo - Remaining(w.todo, oracle);
      assert (tx.branches - {b}) - todo' + Remaining(todo', oracle) == tx.branches - w.todo + Remaining(w.todo, oracle);
    } else {
      assert todo' - Remaining(todo', oracle) == w.todo - Remaining(w.todo, oracle);
      assert tx.branches - todo' + Remaining(todo', oracle) == tx.branches - w.todo + Remaining(w.todo, oracle);
    }
  }

  lemma AsyncEnd(tx: Tx, locks: LockTable, w: Work, oracle: Oracle)
    requires tx.live && w.branches == tx.branches && w.todo == {}
    ensures
      var n := FinishCommit(tx, locks, w);
      n.outcome.Returns? && !n.outcome.error && (n.tx, n.locks, n.outcome.done) == AsyncRest(tx, locks, {}, oracle)
  {
    assert ClaimsOf({}) == {} && Released(locks, {}) == locks;
    assert Remaining({}, oracle) == {};
    var none: set<BranchSession> := {};
    assert tx.branches - none + Remaining(none, oracle) == tx.branches;
    assert none - Remaining(none, oracle) == none;
    assert tx.(branches := tx.branches) == tx;
  }

  lemma {:induction false} AsyncLoop(tx: Tx, locks: LockTable, w: Work, order: seq<BranchSession>, oracle: Oracle)
    requires tx.live && AllAsync(tx.branches) && w.branches == tx.branches && Enumerates(order, w.todo) && w.todo <= w.branches
    requires forall b :: b in w.todo ==> !oracle(b).CallError?
    ensures
      var r := CommitLoop(tx, locks, w, order, true, oracle);
      !r.error && (r.tx, r.locks, r.done) == AsyncRest(tx, locks, w.todo, oracle)
    decreases |order|
  {
    if order == [] {
      AsyncEnd(tx, locks, w, oracle);
    } else {
      var b := order[0];
      EnumeratesTail(order, w.todo);
      AsyncVisit(tx, locks, w, b, oracle);
      VisitTodo(tx, locks, w, b, true, oracle(b));
      var n := VisitCommit(tx, locks, w, b, true, oracle(b));
      AsyncLoop(n.tx, n.locks, n.work, order[1..], oracle);
    }
  }

  /** The order in which the map is walked does not matter: the branches left are exactly those not
      answered PhaseTwoCommitted, and the transaction is removed just when there is none. */
  lemma AsyncPassIgnoresOrder(tx: Tx, locks: LockTable, order: seq<BranchSession>, oracle: Oracle)
    requires tx.live && AllAsync(tx.branches) && !HasSaga(tx.branches) && Enumerates(order, tx.branches)
    requires forall b :: b in tx.branches ==> !oracle(b).CallError?
    ensures
      var r := CommitPass(tx, locks, tx.branches, order, true, oracle);
      !r.error && (r.tx, r.locks, r.done) == AsyncOutcome(tx, locks, oracle)
  {
    AsyncLoop(tx, locks, Work(tx.branches, tx.branches), order, oracle);
    assert tx.branches - tx.branches + Remaining(tx.branches, oracle) == Remaining(tx.branches, oracle);
  }

  lemma {:induction false} AsyncNeverFails(tx: Tx, locks: LockTable, w: Work, order: seq<BranchSession>, oracle: Oracle)
    requires tx.status == AsyncCommitting && AllAsync(w.branches)
    ensures CommitLoop(tx, locks, w, order, true, oracle).tx.status in {AsyncCommitting, Committed}
    decreases |order|
  {
    if order != [] {
      var n := VisitCommit(tx, locks, w, order[0], true, oracle(order[0]));
      if n.outcome.GoesOn? {
        AsyncNeverFails(n.tx, n.locks, n.work, order[1..], oracle);
      }
    }
  }

  lemma SynchronousBranchFails(tx: Tx, locks: LockTable, order: seq<BranchSession>, oracle: Oracle)
    requires tx.live && !AllAsync(tx.branches) && !HasSaga(tx.branches) && Enumerates(order, tx.branches)
    requires forall b :: oracle(b) == Returned(PhaseTwoCommitFailedCanNotRetry)
    ensures CommitPass(tx, locks, tx.branches, order, true, oracle).tx.status == CommitFailed
  {
    var b :| b in tx.branches && !b.AsyncCommit;
    assert b in order && order != [];
    assert oracle(order[0]) == Returned(PhaseTwoCommitFailedCanNotRetry);
  }

  /** A finite set can be walked. */
  lemma {:induction false} AnOrder(bs: set<BranchSession>) returns (order: seq<BranchSession>)
    ensures Enumerates(order, bs)
  {
    if bs == {} {
      return [];
    }
    var b :| b in bs;
    var rest := AnOrder(bs - {b});
    order := rest + [b];
  }

  /** Some pass can fail an asynchronous commit if and only if a stored branch is not asynchronous and none
      is SAGA. */
  lemma AsyncCanFail(tx: Tx, locks: LockTable)
    requires tx.live && tx.status == AsyncCommitting
    ensures (exists order, oracle :: Enumerates(order, tx.branches) && CommitPass(tx, locks, tx.branches, order, true, oracle).tx.status == CommitFailed)
            <==> !AllAsync(tx.branches) && !HasSaga(tx.branches)
  {
    if !AllAsync(tx.branches) && !HasSaga(tx.branches) {
      var order := AnOrder(tx.branches);
      var oracle: Oracle := b => Returned(PhaseTwoCommitFailedCanNotRetry);
      SynchronousBranchFails(tx, locks, order, oracle);
      assert CommitPass(tx, locks, tx.branches, order, true, oracle).tx.status == CommitFailed;
    }
    if AllAsync(tx.branches) {
      forall order, oracle | Enumerates(order, tx.branches)
        ensures CommitPass(tx, locks, tx.branches, order, true, oracle).tx.status != CommitFailed
      {
        AsyncNeverFails(tx, locks, Work(tx.branches, tx.branches), order, oracle);
      }
    }
  }
}
