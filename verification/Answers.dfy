/** What each handler answers and leaves, case by case: by the state of the transaction and the lock table
    before, the order of its branches, and the answers of `branchCommit` and `branchRollback`. */
module Answers {
  import opened Apis
  import opened Storage
  import opened Protocol
  import opened Passes
  import opened PassResults
  import opened Handlers
  import opened RowLocker

  // Commit -------------------------------------------------------------------------------------------------

  predicate Asynchronous(copy: set<BranchSession>) { forall b :: b in copy ==> b.AsyncCommit }
  predicate Saga(copy: set<BranchSession>) { exists b :: b in copy && b.Type == SAGA }

  /** A transaction already decided: its rows of the copy go, and its own status is the answer, but
      Committed for AsyncCommitting. */
  lemma CommitOfDecided(tx: Tx, locks: LockTable, copy: set<BranchSession>, order: seq<BranchSession>, oracle: Oracle)
    requires tx.status != Begin
    ensures HandleCommit(tx, locks, copy, order, oracle) ==
        (Success(if tx.status == AsyncCommitting then Committed else tx.status), tx.(active := false), Released(locks, ClaimsOf(copy)))
  {
  }

  /** A transaction that this call decides. An asynchronous commit is answered at once. Else the answer is a
      failure if and only if a SAGA branch stops the pass before it begins, the call that stops it fails, or
      it is given up for good, so that the removal finds branches left in the copy. The failure names the
      status that the pass has left. */
  lemma CommitOfOpen(tx: Tx, locks: LockTable, copy: set<BranchSession>, order: seq<BranchSession>, oracle: Oracle)
    returns (k: nat)
    requires tx.status == Begin && tx.live && copy <= tx.branches && Enumerates(order, copy)
    ensures CommitStops(copy, order, false, oracle, k)
    ensures
      var (response, tx', locks') := HandleCommit(tx, locks, copy, order, oracle);
      var stopped := if k < |order| then [oracle(order[k])] else [];
      && (response.Failed? <==>
            !Asynchronous(copy)
            && (Saga(copy) || stopped == [CallError] || stopped == [Returned(PhaseTwoCommitFailedCanNotRetry)]))
      && (!response.Failed? ==> response == Success(Committed))
      && (response.Failed? ==>
            response == Failed(UnknownErr, if Saga(copy) then Committing else if stopped == [CallError] then CommitRetrying else CommitFailed)
            && response.status == tx'.status)
    ensures
      var decided := tx.(active := false, status := Committing);
      var between := Released(locks, ClaimsOf(copy));
      var (_, tx', locks') := HandleCommit(tx, locks, copy, order, oracle);
      if Asynchronous(copy) then tx' == decided.(status := AsyncCommitting) && locks' == between
      else if Saga(copy) then tx' == decided && locks' == between
      else exists r :: CommitLeaves(r, decided, between, copy, order, false, oracle, k) && tx' == r.tx && locks' == r.locks
  {
    var decided, between := tx.(active := false, status := Committing), Released(locks, ClaimsOf(copy));
    k := CommitPassIs(decided, between, copy, order, false, oracle);
    KeptIsLeft(tx.branches, copy, order[..k], oracle);
    hide Released, ClaimsOf, Uncommitted, CommitLoop, GoesPast;
    assert decided.branches == tx.branches;
    var r := CommitPass(decided, between, copy, order, false, oracle);
    assert !Saga(copy) ==> CommitLeaves(r, decided, between, copy, order, false, oracle, k);
  }

  lemma KeptIsLeft(bs: set<BranchSession>, copy: set<BranchSession>, front: seq<BranchSession>, oracle: Oracle)
    requires copy <= bs
    ensures Uncommitted(bs, front, oracle) == {} ==> Uncommitted(copy, front, oracle) == {}
  {
    assert Uncommitted(copy, front, oracle) <= Uncommitted(bs, front, oracle);
  }

  // Rollback -----------------------------------------------------------------------------------------------

  lemma RollbackOfDecided(tx: Tx, locks: LockTable, copy: set<BranchSession>, order: seq<BranchSession>, oracle: Oracle)
    requires tx.status != Begin
    ensures HandleRollback(tx, locks, copy, order, oracle) == (Success(tx.status), tx.(active := false), locks)
  {
  }

  /** The answer is an error of the call if and only if a SAGA branch stops the pass before it begins, the
      call that stops it fails, or it is given up for good; else the status that the pass has left. */
  lemma RollbackOfOpen(tx: Tx, locks: LockTable, copy: set<BranchSession>, order: seq<BranchSession>, oracle: Oracle)
    returns (k: nat)
    requires tx.status == Begin && tx.live && copy <= tx.branches && Enumerates(order, copy)
    ensures RollbackStops(tx, order, oracle, k)
    ensures
      var (response, tx', locks') := HandleRollback(tx, locks, copy, order, oracle);
      var stopped := if k < |order| then [oracle(order[k])] else [];
      && (response == RpcError <==>
            Saga(copy) || stopped == [CallError] || stopped == [Returned(PhaseTwoRollbackFailedCanNotRetry)])
      && (response != RpcError ==>
            response == Success(if k < |order| then RollbackRetrying else if copy == tx.branches then RolledBack else RollingBack)
            && response.status == tx'.status)
    ensures
      var decided := tx.(active := false, status := RollingBack);
      var (_, tx', locks') := HandleRollback(tx, locks, copy, order, oracle);
      if Saga(copy) then tx' == decided && locks' == locks
      else exists r :: RollbackLeaves(r, decided, locks, copy, order, false, oracle, k) && tx' == r.tx && locks' == r.locks
  {
    var decided := tx.(active := false, status := RollingBack);
    k := RollbackPassIs(decided, locks, copy, order, false, oracle);
    assert tx.branches <= copy <==> copy == tx.branches;
    hide Released, ClaimsOf, RollbackLoop;
    var r := RollbackPass(decided, locks, copy, order, false, oracle);
    assert !Saga(copy) ==> RollbackLeaves(r, decided, locks, copy, order, false, oracle, k);
  }

  // The retry loops --------------------------------------------------------------------------------------------

  /** One transaction that the rollback loop has found. */
  lemma RetriedRollbackIs(cfg: Config, now: int, clock: int, tx: Tx, locks: LockTable, order: seq<BranchSession>, oracle: Oracle)
    returns (k: nat)
    requires tx.live && Enumerates(order, tx.branches)
    ensures RollbackStops(tx, order, oracle, k)
    ensures
      var (tx', locks') := Retried(cfg, RetryRollback, now, clock, tx, locks, order, oracle);
      var begin := tx.session.BeginTime;
      if tx.status == RollingBack && !Elapsed(clock, begin, cfg.rollbackDeadSeconds) then tx' == tx && locks' == locks
      else if IsRetryTimeout(now, cfg.maxRollbackRetryTimeout, begin) then
        && tx' == tx.(live := false, branches := {})
        && locks' == if cfg.rollbackRetryTimeoutUnlockEnable then Released(locks, ClaimsOf(tx.branches)) else locks
      else if Saga(tx.branches) then tx' == tx && locks' == locks
      else exists r :: RollbackLeaves(r, tx, locks, tx.branches, order, true, oracle, k) && tx' == r.tx && locks' == r.locks
  {
    k := RollbackPassIs(tx, locks, tx.branches, order, true, oracle);
    hide Released, ClaimsOf, RollbackLoop, RollbackLeaves, Elapsed, IsRetryTimeout;
    var r := RollbackPass(tx, locks, tx.branches, order, true, oracle);
    assert !Saga(tx.branches) ==> RollbackLeaves(r, tx, locks, tx.branches, order, true, oracle, k);
  }

  /** One transaction that the commit loop or the asynchronous loop has found; the latter never gives one up
      for its age. */
  lemma RetriedCommitIs(cfg: Config, kind: Kind, now: int, clock: int, tx: Tx, locks: LockTable, order: seq<BranchSession>, oracle: Oracle)
    returns (k: nat)
    requires (kind == RetryCommit || kind == AsyncCommit) && tx.live && Enumerates(order, tx.branches)
    ensures CommitStops(tx.branches, order, true, oracle, k)
    ensures
      var (tx', locks') := Retried(cfg, kind, now, clock, tx, locks, order, oracle);
      if kind == RetryCommit && IsRetryTimeout(now, cfg.maxCommitRetryTimeout, tx.session.BeginTime) then
        tx' == tx.(live := false, branches := {}) && locks' == locks
      else if Saga(tx.branches) then tx' == tx && locks' == locks
      else exists r :: CommitLeaves(r, tx, locks, tx.branches, order, true, oracle, k) && tx' == r.tx && locks' == r.locks
  {
    k := CommitPassIs(tx, locks, tx.branches, order, true, oracle);
    hide Released, ClaimsOf, CommitLoop, CommitLeaves, IsRetryTimeout;
    var r := CommitPass(tx, locks, tx.branches, order, true, oracle);
    assert !Saga(tx.branches) ==> CommitLeaves(r, tx, locks, tx.branches, order, true, oracle, k);
  }

  /** What a pass makes of a transaction does not depend on the lock table. */
  lemma {:induction false} LoopsIgnoreLocks(tx: Tx, a: LockTable, b: LockTable, w: Work, order: seq<BranchSession>, retrying: bool, oracle: Oracle)
    ensures CommitLoop(tx, a, w, order, retrying, oracle).tx == CommitLoop(tx, b, w, order, retrying, oracle).tx
    ensures RollbackLoop(tx, a, w, order, retrying, oracle).tx == RollbackLoop(tx, b, w, order, retrying, oracle).tx
    decreases |order|
  {
    if order == [] {
      EndsIgnoreLocks(tx, a, b, w);
    } else {
      VisitsIgnoreLocks(tx, a, b, w, order[0], retrying, oracle(order[0]));
      hide VisitCommit, VisitRollback, FinishCommit, FinishRollback;
      var m, m' := VisitCommit(tx, a, w, order[0], retrying, oracle(order[0])), VisitCommit(tx, b, w, order[0], retrying, oracle(order[0]));
      LoopsIgnoreLocks(m.tx, m.locks, m'.locks, m.work, order[1..], retrying, oracle);
      var n, n' := VisitRollback(tx, a, w, order[0], retrying, oracle(order[0])), VisitRollback(tx, b, w, order[0], retrying, oracle(order[0]));
      LoopsIgnoreLocks(n.tx, n.locks, n'.locks, n.work, order[1..], retrying, oracle);
    }
  }

  predicate AlikeButLocks(m: Next, n: Next) { m.tx == n.tx && m.work == n.work && m.outcome == n.outcome }

  lemma VisitsIgnoreLocks(tx: Tx, a: LockTable, b: LockTable, w: Work, branch: BranchSession, retrying: bool, answer: Answer)
    ensures AlikeButLocks(VisitCommit(tx, a, w, branch, retrying, answer), VisitCommit(tx, b, w, branch, retrying, answer))
    ensures AlikeButLocks(VisitRollback(tx, a, w, branch, retrying, answer), VisitRollback(tx, b, w, branch, retrying, answer))
  {
    hide Released, ClaimsOf, BranchClaims, IsTimeoutStatus, AllAsync;
  }

  lemma EndsIgnoreLocks(tx: Tx, a: LockTable, b: LockTable, w: Work)
    ensures AlikeButLocks(FinishCommit(tx, a, w), FinishCommit(tx, b, w)) && AlikeButLocks(FinishRollback(tx, a, w), FinishRollback(tx, b, w))
  {
    hide Released, ClaimsOf, IsTimeoutStatus;
  }

  lemma RetriedIgnoresLocks(cfg: Config, kind: Kind, now: int, clock: int, tx: Tx, a: LockTable, b: LockTable,
                            order: seq<BranchSession>, oracle: Oracle)
    requires kind.Retries()
    ensures Retried(cfg, kind, now, clock, tx, a, order, oracle).0 == Retried(cfg, kind, now, clock, tx, b, order, oracle).0
  {
    LoopsIgnoreLocks(tx, a, b, Work(tx.branches, tx.branches), order, true, oracle);
    hide CommitLoop, RollbackLoop, Released, ClaimsOf, HasSaga, Elapsed, IsRetryTimeout;
  }

  predicate Distinct(xids: seq<string>) { forall i, j :: 0 <= i < j < |xids| ==> xids[i] != xids[j] }

  lemma DistinctInit(xids: seq<string>)
    requires Distinct(xids) && xids != []
    ensures
      var before, x := xids[..|xids| - 1], xids[|xids| - 1];
      Distinct(before) && x !in before && xids == before + [x]
  {
  }

  /** Each transaction is left as its own retry leaves it, and no other changes. */
  predicate EachRetried(cfg: Config, kind: Kind, now: int, clock: int -> int, st: Store, st': Store,
                        xids: seq<string>, orders: seq<seq<BranchSession>>, oracle: Oracle)
    requires kind.Retries() && |xids| == |orders|
  {
    && st'.txs.Keys == st.txs.Keys
    && (forall x :: x in st.txs && x !in xids ==> st'.txs[x] == st.txs[x])
    && (forall x :: x in xids ==> x in st.txs)
    && forall i :: 0 <= i < |xids| ==>
        st'.txs[xids[i]] == Retried(cfg, kind, now, clock(i), st.txs[xids[i]], st.locks, orders[i], oracle).0
  }

  lemma EachRetriedNext(cfg: Config, kind: Kind, now: int, clock: int -> int, st: Store, between: Store,
                        xids: seq<string>, orders: seq<seq<BranchSession>>, oracle: Oracle, x: string, order: seq<BranchSession>)
    requires kind.Retries() && |xids| == |orders| && x !in xids && x in st.txs
    requires EachRetried(cfg, kind, now, clock, st, between, xids, orders, oracle)
    ensures EachRetried(cfg, kind, now, clock, st, RetryNext(cfg, kind, now, clock(|xids|), between, x, order, oracle), xids + [x], orders + [order], oracle)
  {
    hide Retried;
    RetriedIgnoresLocks(cfg, kind, now, clock(|xids|), st.txs[x], between.locks, st.locks, order, oracle);
    forall i | 0 <= i < |xids| ensures xids[i] != x {
      assert xids[i] in xids;
    }
  }

  lemma NoneRetried(cfg: Config, kind: Kind, now: int, clock: int -> int, st: Store, oracle: Oracle)
    requires kind.Retries()
    ensures EachRetried(cfg, kind, now, clock, st, st, [], [], oracle)
  {
  }

  lemma {:induction false} RetryEach(cfg: Config, kind: Kind, now: int, clock: int -> int, st: Store,
                                     xids: seq<string>, orders: seq<seq<BranchSession>>, oracle: Oracle)
    requires kind.Retries() && |xids| == |orders| && Distinct(xids)
    requires forall x :: x in xids ==> x in st.txs
    ensures EachRetried(cfg, kind, now, clock, st, RetryAll(cfg, kind, now, clock, st, xids, orders, oracle), xids, orders, oracle)
  {
    NoneRetried(cfg, kind, now, clock, st, oracle);
    hide EachRetried, RetryNext, Distinct;
    if xids != [] {
      var last := |xids| - 1;
      DistinctInit(xids);
      assert orders == orders[..last] + [orders[last]];
      RetryEach(cfg, kind, now, clock, st, xids[..last], orders[..last], oracle);
      EachRetriedNext(cfg, kind, now, clock, st, RetryAll(cfg, kind, now, clock, st, xids[..last], orders[..last], oracle),
                      xids[..last], orders[..last], oracle, xids[last], orders[last]);
    }
  }

  /** A pass that was found, or decided, starts its loop in whatever state the transaction is by then, if and
      only if: it has no SAGA branch; a first commit is not asynchronous; the asynchronous loop still finds
      AsyncCommitting; the rollback loop finds no session in RollingBack that is not dead; and no loop but the
      asynchronous one finds it too old. */
  lemma PassStarts(cfg: Config, t: TxState, locks: LockTable, kind: Kind, now: int, clock: int)
    requires kind in t.jobs
    ensures
      var copy, begin := t.jobs[kind].work.branches, t.tx.session.BeginTime;
      var (t', locks') := Begun(cfg, t, locks, kind, now, clock);
      && (kind in t'.jobs <==>
            && !Saga(copy) && (kind == SyncCommit ==> !Asynchronous(copy)) && (kind == AsyncCommit ==> t.tx.status == AsyncCommitting)
            && (kind == RetryRollback ==> t.tx.status != RollingBack || Elapsed(clock, begin, cfg.rollbackDeadSeconds))
            && !(kind == RetryCommit && IsRetryTimeout(now, cfg.maxCommitRetryTimeout, begin))
            && !(kind == RetryRollback && IsRetryTimeout(now, cfg.maxRollbackRetryTimeout, begin)))
      && (kind in t'.jobs ==> t'.jobs[kind] == Job(t.jobs[kind].work, true) && t'.tx == t.tx && locks' == locks)
      && t'.jobs - {kind} == t.jobs - {kind}
  {
    hide Elapsed, IsRetryTimeout, Released, ClaimsOf, HasSaga, AllAsync;
    assert HasSaga(t.jobs[kind].work.branches) <==> Saga(t.jobs[kind].work.branches) by { SameTests(t.jobs[kind].work.branches); }
    assert AllAsync(t.jobs[kind].work.branches) <==> Asynchronous(t.jobs[kind].work.branches) by { SameTests(t.jobs[kind].work.branches); }
    hide Saga, Asynchronous;
  }

  lemma SameTests(copy: set<BranchSession>)
    ensures (HasSaga(copy) <==> Saga(copy)) && (AllAsync(copy) <==> Asynchronous(copy))
  {
  }

  // Registration -----------------------------------------------------------------------------------------------

  /** A row of the branch's lock key is held by another transaction. */
  predicate Conflicts(locks: LockTable, b: BranchSession)
  {
    exists r :: r in BranchRows(b).Items() && r.rowKey in locks && locks[r.rowKey] != b.TransactionID
  }

  predicate InLockKey(k: string, b: BranchSession)
  {
    exists r :: r in BranchRows(b).Items() && r.rowKey == k
  }

  lemma ClaimedKeys(b: BranchSession)
    ensures forall k :: k in Keys(BranchClaims(b)) <==> InLockKey(k, b)
    ensures forall k, t :: (k, t) in BranchClaims(b) <==> InLockKey(k, b) && t == b.TransactionID
    ensures forall locks :: Free(locks, BranchClaims(b)) <==> !Conflicts(locks, b)
  {
    MeaningOwned(b.LockKey, Owner(b.ResourceID, b.XID, b.TransactionID, b.BranchID));
    forall r | r in BranchRows(b).Items() ensures (r.rowKey, b.TransactionID) in BranchClaims(b) {
    }
    forall k ensures k in Keys(BranchClaims(b)) <==> InLockKey(k, b) {
      if InLockKey(k, b) {
        assert (k, b.TransactionID) in BranchClaims(b) && (k, b.TransactionID).0 == k;
      }
    }
    forall locks ensures Free(locks, BranchClaims(b)) <==> !Conflicts(locks, b) {
      if Conflicts(locks, b) {
        var r :| r in BranchRows(b).Items() && r.rowKey in locks && locks[r.rowKey] != b.TransactionID;
        assert (r.rowKey, b.TransactionID) in BranchClaims(b) && (r.rowKey, b.TransactionID).0 in locks;
      }
    }
  }

  /** A transaction that is not stored, not open or decided takes no branch, for that reason. An open one
      refuses an AT branch if and only if a row of its lock key is held by another transaction; then only rows
      of the lock key that it held itself are dropped. Else the branch is stored, all rows of an AT branch are
      its transaction's, and no other row changes. */
  lemma Registration(tx: Tx, locks: LockTable, b: BranchSession)
    ensures
      var (verdict, tx', locks') := Storage.Register(tx, locks, b);
      if !tx.live then verdict == Refused(GlobalTransactionNotExist) && tx' == tx && locks' == locks
      else if !tx.active then verdict == Refused(GlobalTransactionNotActive) && tx' == tx && locks' == locks
      else if tx.status != Begin then verdict == Refused(GlobalTransactionStatusInvalid) && tx' == tx && locks' == locks
      else if b.Type == AT && Conflicts(locks, b) then
        && verdict == Refused(LockKeyConflict) && tx' == tx
        && (forall k :: k in locks' <==> k in locks && !(InLockKey(k, b) && locks[k] == b.TransactionID))
        && (forall k :: k in locks' ==> locks'[k] == locks[k])
      else
        && verdict == Accepted
        && tx' == tx.(branches := tx.branches + {b}, report := tx.report[b := Registered])
        && (b.Type == AT ==> forall k :: InLockKey(k, b) ==> k in locks' && locks'[k] == b.TransactionID)
        && (forall k :: k in locks' <==> k in locks || (b.Type == AT && InLockKey(k, b)))
        && (forall k :: k in locks && (b.Type != AT || !InLockKey(k, b)) ==> locks'[k] == locks[k])
  {
    ClaimedKeys(b);
    hide BranchClaims, InLockKey, Conflicts;
  }

  // Reports ------------------------------------------------------------------------------------------------------

  /** A report records the status of that branch, and nothing else. */
  lemma ReportIs(tx: Tx, b: BranchSession, status: BranchStatus)
    ensures
      var tx' := Storage.Report(tx, b, status);
      && tx' == tx.(report := tx'.report) && b in tx'.report && tx'.report[b] == status
      && forall c :: c != b ==> (c in tx'.report <==> c in tx.report) && (c in tx.report ==> tx'.report[c] == tx.report[c])
  {
  }

  /** After a report of PhaseOneFailed, a rollback settles the branch without a call: whatever its resource
      manager would answer, the pass goes on. After any other report it asks. */
  lemma ReportedFailed(tx: Tx, b: BranchSession, status: BranchStatus, locks: LockTable, w: Work, retrying: bool, answer: Answer)
    requires tx.live
    ensures
      var tx' := Storage.Report(tx, b, status);
      var n := VisitRollback(tx', locks, w, b, retrying, answer);
      && (status == PhaseOneFailed ==>
            n == Next(tx'.(branches := tx'.branches - {b}), Released(locks, BranchClaims(b)), Work(w.branches - {b}, w.todo - {b}), GoesOn))
      && (status != PhaseOneFailed ==> (n.outcome.GoesOn? <==> answer == Returned(PhaseTwoRolledBack)))
  {
    hide Released, BranchClaims, ClaimsOf;
  }

  // timeoutCheck ---------------------------------------------------------------------------------------------------

  /** A stored session found in Begin, with a limit that is not negative: closed and set to
      TimeoutRollingBack if and only if its time is up or the clock is behind its beginning; else unchanged. */
  lemma TimedOutIs(tx: Tx, now: int)
    requires tx.live && tx.status == Begin
    requires 0 <= now < 0x8000_0000_0000_0000 && 0 <= tx.session.BeginTime < 0x8000_0000_0000_0000
    requires 0 <= tx.session.Timeout < 0x8000_0000_0000_0000
    ensures
      var begin, limit := tx.session.BeginTime, tx.session.Timeout;
      DecideTimeout(tx, now) ==
        if now < begin || now - begin > limit then tx.(active := false, status := TimeoutRollingBack) else tx
  {
    ElapsedMeans(now, tx.session.BeginTime, tx.session.Timeout);
    hide Elapsed;
  }

  predicate TimeoutLeaves(now: int, tx: Tx, tx': Tx)
  {
    tx' == if Elapsed(now, tx.session.BeginTime, tx.session.Timeout) then tx.(active := false, status := TimeoutRollingBack) else tx
  }

  /** Each session is decided by its own reading of the clock, and nothing else changes. */
  predicate EachTimedOut(clock: int -> int, st: Store, st': Store, xids: seq<string>)
  {
    && st'.locks == st.locks && st'.txs.Keys == st.txs.Keys
    && (forall x :: x in st.txs && x !in xids ==> st'.txs[x] == st.txs[x])
    && (forall x :: x in xids ==> x in st.txs)
    && (forall i :: 0 <= i < |xids| ==> TimeoutLeaves(clock(i), st.txs[xids[i]], st'.txs[xids[i]]))
  }

  lemma EachTimedOutNext(clock: int -> int, st: Store, between: Store, xids: seq<string>, x: string)
    requires EachTimedOut(clock, st, between, xids) && x !in xids && x in st.txs && st.txs[x].live
    ensures EachTimedOut(clock, st, TimeoutNext(between, x, clock(|xids|)), xids + [x])
  {
    var st' := TimeoutNext(between, x, clock(|xids|));
    assert TimeoutLeaves(clock(|xids|), st.txs[x], st'.txs[x]);
    forall i | 0 <= i < |xids| ensures st'.txs[xids[i]] == between.txs[xids[i]] {
      assert xids[i] in xids;
    }
    hide TimeoutLeaves, DecideTimeout;
  }

  lemma {:induction false} TimeoutEach(clock: int -> int, st: Store, xids: seq<string>)
    requires Distinct(xids)
    requires forall x :: x in xids ==> x in st.txs && st.txs[x].live
    ensures EachTimedOut(clock, st, TimeoutAll(clock, st, xids), xids)
  {
    assert EachTimedOut(clock, st, st, []);
    hide EachTimedOut, TimeoutNext, Distinct;
    if xids != [] {
      var before, x := xids[..|xids| - 1], xids[|xids| - 1];
      DistinctInit(xids);
      TimeoutEach(clock, st, before);
      EachTimedOutNext(clock, st, TimeoutAll(clock, st, before), before, x);
    }
  }
}
