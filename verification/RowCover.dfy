/** Rows and the branches they belong to, step by step. */
module RowCover {
  import opened Apis
  import opened Storage
  import opened Protocol
  import opened Invariant

  predicate Covers(locks: LockTable, k: string, b: BranchSession)
  {
    b.Type == AT && k in locks && (k, locks[k]) in BranchClaims(b)
  }

  /** Every row of `tid` is in the lock key of an AT branch of bs. */
  predicate CoveredBy(locks: LockTable, tid: int, bs: set<BranchSession>)
  {
    forall k :: k in locks && locks[k] == tid ==> exists b :: b in bs && Covers(locks, k, b)
  }

  /** The branches that a stored transaction's rows belong to. */
  function Keepers(t: TxState): set<BranchSession>
  {
    if t.committing then t.tx.branches * t.missed else t.tx.branches
  }

  /** A stored transaction's rows belong to its stored branches. One that was decided to commit, and, when
      timed-out rollbacks unlock, one that is removed, has rows at most of branches its decision missed. */
  predicate LocksOk(cfg: Config, t: TxState, locks: LockTable)
  {
    if t.tx.live then CoveredBy(locks, t.tx.Tid(), Keepers(t))
    else t.committing || cfg.rollbackRetryTimeoutUnlockEnable ==> CoveredBy(locks, t.tx.Tid(), t.missed)
  }

  /** Only the rows of `tid` differ. */
  predicate SameOthers(a: LockTable, b: LockTable, tid: int)
  {
    && (forall k :: k in a && a[k] != tid ==> k in b && b[k] == a[k])
    && (forall k :: k in b && b[k] != tid ==> k in a && b[k] == a[k])
  }

  lemma SameAsBefore(locks: LockTable, tid: int)
    ensures SameOthers(locks, locks, tid)
  {
  }

  lemma MoreCover(locks: LockTable, tid: int, a: set<BranchSession>, b: set<BranchSession>)
    requires CoveredBy(locks, tid, a) && a <= b
    ensures CoveredBy(locks, tid, b)
  {
  }

  lemma ReleasedOthers(locks: LockTable, claims: set<Claim>, tid: int)
    requires forall c :: c in claims ==> c.1 == tid
    ensures SameOthers(locks, Released(locks, claims), tid)
  {
  }

  lemma ClaimsOfOwned(bs: set<BranchSession>, tid: int)
    requires forall b :: b in bs ==> b.TransactionID == tid
    ensures forall c :: c in ClaimsOf(bs) ==> c.1 == tid
  {
    forall b | b in bs ensures forall c :: c in BranchClaims(b) ==> c.1 == tid {
      BranchClaimsOwned(b);
    }
  }

  /** Releasing uncovers nothing. */
  lemma ReleaseKeeps(locks: LockTable, claims: set<Claim>, tid: int, bs: set<BranchSession>)
    requires CoveredBy(locks, tid, bs)
    ensures CoveredBy(Released(locks, claims), tid, bs)
  {
    var locks' := Released(locks, claims);
    forall k | k in locks' && locks'[k] == tid ensures exists b :: b in bs && Covers(locks', k, b) {
      var b :| b in bs && Covers(locks, k, b);
      assert Covers(locks', k, b);
    }
  }

  /** What the branches of `gone` covered alone is free after their release. */
  lemma ReleaseTakes(locks: LockTable, tid: int, bs: set<BranchSession>, gone: set<BranchSession>)
    requires CoveredBy(locks, tid, bs)
    ensures CoveredBy(Released(locks, ClaimsOf(gone)), tid, bs - gone)
  {
    var locks' := Released(locks, ClaimsOf(gone));
    forall k | k in locks' && locks'[k] == tid ensures exists b :: b in bs - gone && Covers(locks', k, b) {
      var b :| b in bs && Covers(locks, k, b);
      assert Covers(locks', k, b);
    }
  }

  lemma ReleaseBranch(locks: LockTable, tid: int, bs: set<BranchSession>, b: BranchSession)
    requires CoveredBy(locks, tid, bs)
    ensures CoveredBy(Released(locks, BranchClaims(b)), tid, bs - {b})
  {
    assert ClaimsOf({b}) == BranchClaims(b);
    ReleaseTakes(locks, tid, bs, {b});
  }

  lemma GrantedOthers(locks: LockTable, claims: set<Claim>, tid: int)
    requires Free(locks, claims) && forall c :: c in claims ==> c.1 == tid
    ensures SameOthers(locks, Granted(locks, claims, tid), tid)
  {
  }

  lemma GrantedCover(locks: LockTable, tid: int, bs: set<BranchSession>, b: BranchSession)
    requires CoveredBy(locks, tid, bs) && b.TransactionID == tid && b.Type == AT
    ensures CoveredBy(Granted(locks, BranchClaims(b), tid), tid, bs + {b})
  {
    BranchClaimsOwned(b);
    var locks' := Granted(locks, BranchClaims(b), tid);
    forall k | k in locks' && locks'[k] == tid ensures exists c :: c in bs + {b} && Covers(locks', k, c) {
      if k in Keys(BranchClaims(b)) {
        var c :| c in BranchClaims(b) && c.0 == k;
        assert Covers(locks', k, b);
      } else {
        var c :| c in bs && Covers(locks, k, c);
        assert Covers(locks', k, c);
      }
    }
  }

  /** Granted or refused, registering keeps every row of the transaction covered by its stored branches. */
  lemma RegisterLocks(cfg: Config, t: TxState, locks: LockTable, b: BranchSession)
    requires BaseOk(t) && LocksOk(cfg, t, locks) && EnabledOn(t, Register(b))
    ensures
      var (t', locks') := ApplyOn(cfg, t, locks, Register(b));
      LocksOk(cfg, t', locks') && SameOthers(locks, locks', t.tx.Tid())
  {
    var tid, bs := t.tx.Tid(), t.tx.branches;
    SameAsBefore(locks, tid);
    if t.tx.live && t.tx.status == Begin {
      BranchClaimsOwned(b);
      if b.Type == AT {
        ReleasedOthers(locks, BranchClaims(b), tid);
        ReleaseKeeps(locks, BranchClaims(b), tid, bs);
        if Free(locks, BranchClaims(b)) {
          GrantedOthers(locks, BranchClaims(b), tid);
          GrantedCover(locks, tid, bs, b);
        }
      } else {
        MoreCover(locks, tid, bs, bs + {b});
      }
    }
    hide CoveredBy, SameOthers, Free, KnownOk, BranchesOk;
  }

  /** The rows of the deciding copy go; what is left is of branches that it lacks. */
  lemma CommitLocks(cfg: Config, t: TxState, locks: LockTable, copy: set<BranchSession>)
    requires BaseOk(t) && LocksOk(cfg, t, locks) && EnabledOn(t, Commit(copy))
    ensures
      var (t', locks') := ApplyOn(cfg, t, locks, Commit(copy));
      LocksOk(cfg, t', locks') && SameOthers(locks, locks', t.tx.Tid())
  {
    var tid := t.tx.Tid();
    assert forall b :: b in copy ==> b.TransactionID == tid;
    assert t.tx.branches * (t.tx.branches - copy) == t.tx.branches - copy;
    hide CoveredBy, SameOthers, KnownOk, BranchesOk, Released;
    ClaimsOfOwned(copy, tid);
    ReleasedOthers(locks, ClaimsOf(copy), tid);
    if t.tx.live {
      ReleaseKeeps(locks, ClaimsOf(copy), tid, Keepers(t));
      ReleaseTakes(locks, tid, Keepers(t), copy);
    } else if t.committing || cfg.rollbackRetryTimeoutUnlockEnable {
      ReleaseKeeps(locks, ClaimsOf(copy), tid, t.missed);
    }
  }

  /** Removed without a release: all is well if it was decided to commit, or nothing is promised. */
  lemma RemovedLocks(cfg: Config, t: TxState, locks: LockTable, kind: Kind)
    requires LocksOk(cfg, t, locks) && (t.committing || !cfg.rollbackRetryTimeoutUnlockEnable)
    ensures LocksOk(cfg, Drop(t, kind, Removed(t.tx)), locks)
  {
    if t.tx.live && t.committing {
      MoreCover(locks, t.tx.Tid(), Keepers(t), t.missed);
    }
    hide CoveredBy;
  }

  /** Removed with the release of a pass's copy. */
  lemma ReleasedLive(cfg: Config, t: TxState, locks: LockTable, kind: Kind)
    requires BaseOk(t) && LocksOk(cfg, t, locks) && kind in t.jobs
    requires t.tx.live || t.committing || cfg.rollbackRetryTimeoutUnlockEnable
    ensures
      var locks' := Released(locks, ClaimsOf(t.jobs[kind].work.branches));
      CoveredBy(locks', t.tx.Tid(), t.missed) && SameOthers(locks, locks', t.tx.Tid())
  {
    HasJob(t, kind);
    var tid, bs := t.tx.Tid(), t.jobs[kind].work.branches;
    assert forall b :: b in bs ==> b.TransactionID == tid;
    assert Keepers(t) - bs <= t.missed;
    hide CoveredBy, SameOthers, KnownOk, BranchesOk, OpenOk, Released;
    ClaimsOfOwned(bs, tid);
    ReleasedOthers(locks, ClaimsOf(bs), tid);
    if t.tx.live {
      ReleaseTakes(locks, tid, Keepers(t), bs);
      MoreCover(Released(locks, ClaimsOf(bs)), tid, Keepers(t) - bs, t.missed);
    } else {
      ReleaseKeeps(locks, ClaimsOf(bs), tid, t.missed);
    }
  }

  lemma UnlockedLocks(cfg: Config, t: TxState, locks: LockTable)
    requires BaseOk(t) && LocksOk(cfg, t, locks) && RetryRollback in t.jobs && cfg.rollbackRetryTimeoutUnlockEnable
    ensures
      var locks' := Released(locks, ClaimsOf(t.jobs[RetryRollback].work.branches));
      LocksOk(cfg, Drop(t, RetryRollback, Removed(t.tx)), locks') && SameOthers(locks, locks', t.tx.Tid())
  {
    ReleasedLive(cfg, t, locks, RetryRollback);
    hide CoveredBy, BaseOk, Released;
  }

  /** A pass that starts, or leaves the transaction as it is: at most a commit becomes asynchronous. */
  predicate StartsInPlace(t: TxState, locks: LockTable, t': TxState, locks': LockTable)
  {
    && locks' == locks && t'.tx == t.tx.(status := t'.tx.status) && t'.committing == t.committing && t'.missed == t.missed
    && (t'.tx.status == t.tx.status || t'.tx.status == AsyncCommitting) && t'.late == t.late && t'.copies == t.copies
  }

  lemma StartCommitCases(cfg: Config, t: TxState, locks: LockTable, kind: Kind, now: int, clock: int)
    requires kind in t.jobs && kind.Commits()
    ensures
      var (t', locks') := Begun(cfg, t, locks, kind, now, clock);
      if kind == RetryCommit && IsRetryTimeout(now, cfg.maxCommitRetryTimeout, t.tx.session.BeginTime) then
        t' == Drop(t, kind, Removed(t.tx)) && locks' == locks
      else StartsInPlace(t, locks, t', locks')
  {
    hide HasSaga, AllAsync, IsRetryTimeout, Elapsed, Released;
  }

  lemma StartRollbackCases(cfg: Config, t: TxState, locks: LockTable, kind: Kind, now: int, clock: int)
    requires kind in t.jobs && !kind.Commits()
    ensures
      var begin := t.tx.session.BeginTime;
      var (t', locks') := Begun(cfg, t, locks, kind, now, clock);
      if kind == RetryRollback && IsRetryTimeout(now, cfg.maxRollbackRetryTimeout, begin)
         && (t.tx.status != RollingBack || Elapsed(clock, begin, cfg.rollbackDeadSeconds)) then
        t' == Drop(t, kind, Removed(t.tx))
        && locks' == if cfg.rollbackRetryTimeoutUnlockEnable then Released(locks, ClaimsOf(t.jobs[kind].work.branches)) else locks
      else StartsInPlace(t, locks, t', locks')
  {
    hide HasSaga, AllAsync, IsRetryTimeout, Elapsed, Released, ClaimsOf;
  }

  /** How a pass starts, as far as rows are concerned. */
  lemma StartCases(cfg: Config, t: TxState, locks: LockTable, kind: Kind, now: int, clock: int)
    requires kind in t.jobs
    ensures
      var begin := t.tx.session.BeginTime;
      var removed := Drop(t, kind, Removed(t.tx));
      var (t', locks') := Begun(cfg, t, locks, kind, now, clock);
      if kind == RetryCommit && IsRetryTimeout(now, cfg.maxCommitRetryTimeout, begin) then t' == removed && locks' == locks
      else if kind == RetryRollback && IsRetryTimeout(now, cfg.maxRollbackRetryTimeout, begin)
              && (t.tx.status != RollingBack || Elapsed(clock, begin, cfg.rollbackDeadSeconds)) then
        t' == removed
        && locks' == if cfg.rollbackRetryTimeoutUnlockEnable then Released(locks, ClaimsOf(t.jobs[kind].work.branches)) else locks
      else StartsInPlace(t, locks, t', locks')
  {
    if kind.Commits() {
      StartCommitCases(cfg, t, locks, kind, now, clock);
    } else {
      StartRollbackCases(cfg, t, locks, kind, now, clock);
    }
    hide Begun, StartsInPlace, IsRetryTimeout, Elapsed, Released;
  }

  lemma StartLocks(cfg: Config, t: TxState, locks: LockTable, kind: Kind, now: int, clock: int)
    requires BaseOk(t) && LocksOk(cfg, t, locks) && EnabledOn(t, Start(kind, now, clock))
    ensures
      var (t', locks') := Begun(cfg, t, locks, kind, now, clock);
      LocksOk(cfg, t', locks') && SameOthers(locks, locks', t.tx.Tid())
  {
    HasJob(t, kind);
    hide BaseOk, LocksOk, SameOthers, CoveredBy, Begun, IsRetryTimeout, Elapsed, Released;
    StartCases(cfg, t, locks, kind, now, clock);
    var begin := t.tx.session.BeginTime;
    SameAsBefore(locks, t.tx.Tid());
    if kind == RetryCommit && IsRetryTimeout(now, cfg.maxCommitRetryTimeout, begin) {
      RemovedLocks(cfg, t, locks, kind);
    } else if kind == RetryRollback && IsRetryTimeout(now, cfg.maxRollbackRetryTimeout, begin)
              && (t.tx.status != RollingBack || Elapsed(clock, begin, cfg.rollbackDeadSeconds)) {
      if cfg.rollbackRetryTimeoutUnlockEnable {
        UnlockedLocks(cfg, t, locks);
      } else {
        RemovedLocks(cfg, t, locks, kind);
      }
    } else {
      SameLocks(cfg, t, Begun(cfg, t, locks, kind, now, clock).0, locks);
    }
  }

  /** What a pass leaves of the rows. */
  predicate NextLocksOk(cfg: Config, t: TxState, locks: LockTable, n: Next)
  {
    LocksOk(cfg, t.(tx := n.tx), n.locks) && SameOthers(locks, n.locks, t.tx.Tid())
  }

  lemma SettleLocks(cfg: Config, t: TxState, locks: LockTable, kind: Kind, b: BranchSession)
    requires BaseOk(t) && LocksOk(cfg, t, locks) && kind in t.jobs && b in t.jobs[kind].work.todo
    ensures NextLocksOk(cfg, t, locks, Settle(t.tx, locks, t.jobs[kind].work, b))
  {
    HasJob(t, kind);
    var tid := t.tx.Tid();
    assert b.TransactionID == tid;
    assert (t.tx.branches - {b}) * t.missed == t.tx.branches * t.missed - {b};
    hide CoveredBy, SameOthers, KnownOk, BranchesOk, OpenOk, Released;
    BranchClaimsOwned(b);
    ReleasedOthers(locks, BranchClaims(b), tid);
    if t.tx.live {
      ReleaseBranch(locks, tid, Keepers(t), b);
    } else if t.committing || cfg.rollbackRetryTimeoutUnlockEnable {
      ReleaseKeeps(locks, BranchClaims(b), tid, t.missed);
    }
  }

  lemma ConcludeLocks(cfg: Config, t: TxState, locks: LockTable, kind: Kind, status: GlobalStatus, done: bool)
    requires BaseOk(t) && LocksOk(cfg, t, locks) && kind in t.jobs
    ensures NextLocksOk(cfg, t, locks, Conclude(t.tx, locks, t.jobs[kind].work, status, done))
  {
    if t.tx.live {
      ReleasedLive(cfg, t, locks, kind);
    }
    hide BaseOk, CoveredBy, SameOthers, Released;
    SameAsBefore(locks, t.tx.Tid());
  }

  /** Nothing is released and no branch is taken out. */
  lemma SameLocks(cfg: Config, t: TxState, t': TxState, locks: LockTable)
    requires LocksOk(cfg, t, locks)
    requires t'.tx.session == t.tx.session && t'.tx.live == t.tx.live && t'.tx.branches == t.tx.branches
    requires t'.committing == t.committing && (t'.missed == t.missed || (!t'.committing && t'.tx.live))
    ensures LocksOk(cfg, t', locks) && SameOthers(locks, locks, t.tx.Tid())
  {
    hide CoveredBy;
  }

  lemma VisitLocks(cfg: Config, t: TxState, locks: LockTable, kind: Kind, b: BranchSession, answer: Answer)
    requires BaseOk(t) && LocksOk(cfg, t, locks) && EnabledOn(t, Visit(kind, b, answer))
    ensures
      var (t', locks') := Visited(t, locks, kind, b, answer);
      LocksOk(cfg, t', locks') && SameOthers(locks, locks', t.tx.Tid())
  {
    hide BaseOk, SameOthers, CoveredBy, VisitCommit, AnswerRollback, LocksOk;
    var w := t.jobs[kind].work;
    var n := if kind.Commits() then VisitCommit(t.tx, locks, w, b, kind.Retries(), answer)
             else AnswerRollback(t.tx, locks, w, b, kind.Retries(), answer);
    NextLocks(cfg, t, locks, kind, b, answer, n);
    SameLocks(cfg, t.(tx := n.tx), Visited(t, locks, kind, b, answer).0, n.locks);
  }

  lemma NextLocks(cfg: Config, t: TxState, locks: LockTable, kind: Kind, b: BranchSession, answer: Answer, n: Next)
    requires BaseOk(t) && LocksOk(cfg, t, locks) && EnabledOn(t, Visit(kind, b, answer))
    requires n == if kind.Commits() then VisitCommit(t.tx, locks, t.jobs[kind].work, b, kind.Retries(), answer)
                  else AnswerRollback(t.tx, locks, t.jobs[kind].work, b, kind.Retries(), answer)
    ensures NextLocksOk(cfg, t, locks, n)
  {
    hide BaseOk, SameOthers, CoveredBy, Settle, Conclude, IsTimeoutStatus;
    SettleLocks(cfg, t, locks, kind, b);
    ConcludeLocks(cfg, t, locks, kind, if kind.Commits() then CommitFailed else FailedStatus(t.tx.status), false);
    if n.locks == locks && n.tx == t.tx.(status := n.tx.status) {
      SameLocks(cfg, t, t.(tx := n.tx), locks);
    }
  }

  lemma FinishLocks(cfg: Config, t: TxState, locks: LockTable, kind: Kind)
    requires BaseOk(t) && LocksOk(cfg, t, locks) && EnabledOn(t, Finish(kind))
    ensures
      var (t', locks') := Ended(t, locks, kind);
      LocksOk(cfg, t', locks') && SameOthers(locks, locks', t.tx.Tid())
  {
    hide BaseOk, SameOthers, CoveredBy, Conclude;
    ConcludeLocks(cfg, t, locks, kind, if kind.Commits() then Committed else DoneStatus(t.tx.status), true);
    SameAsBefore(locks, t.tx.Tid());
  }

  /** No step changes a row of another transaction; every step keeps its own rows covered. */
  lemma StepLocks(cfg: Config, t: TxState, locks: LockTable, a: LocalAction)
    requires BaseOk(t) && LocksOk(cfg, t, locks) && EnabledOn(t, a)
    ensures
      var (t', locks') := ApplyOn(cfg, t, locks, a);
      LocksOk(cfg, t', locks') && SameOthers(locks, locks', t.tx.Tid())
  {
    match a
    case Register(b) => RegisterLocks(cfg, t, locks, b);
    case Commit(copy) => CommitLocks(cfg, t, locks, copy);
    case Start(kind, now, clock) => StartLocks(cfg, t, locks, kind, now, clock);
    case Visit(kind, b, answer) => VisitLocks(cfg, t, locks, kind, b, answer);
    case Spare(kind, b) => SettleLocks(cfg, t, locks, kind, b);
    case Finish(kind) => FinishLocks(cfg, t, locks, kind);
    case _ =>
      SameLocks(cfg, t, ApplyOn(cfg, t, locks, a).0, locks);
  }
}
