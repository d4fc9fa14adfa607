/** What every step keeps of one transaction even after timeoutCheck wrote too late: where its branches went. */
module Account {
  import opened Apis
  import opened Storage
  import opened Protocol
  import opened Invariant
  import opened RowCover

  /** `branchCommit` was called for b and returned PhaseTwoCommitted. */
  predicate Commits(a: LocalAction, b: BranchSession)
  {
    a.Visit? && a.kind.Commits() && a.b == b && a.answer == Returned(PhaseTwoCommitted)
  }

  /** `branchRollback` was called for b and returned PhaseTwoRolledBack, or no call was needed. */
  predicate RollsBackBranch(a: LocalAction, b: BranchSession)
  {
    || (a.Visit? && !a.kind.Commits() && a.b == b && a.answer == Returned(PhaseTwoRolledBack))
    || (a.Spare? && a.b == b)
  }

  /** Every branch that a stored transaction has lost was committed, rolled back or reported failed. */
  predicate Accounted(t: TxState)
  {
    t.tx.live ==> forall b :: b in t.tx.report ==> b in t.tx.branches || b in t.committed || t.Settled(b)
  }

  /** What a stored session can be in. */
  predicate LiveStatus(s: GlobalStatus)
  {
    s in {Begin, Committing, AsyncCommitting, CommitRetrying, RollingBack, RollbackRetrying, TimeoutRollingBack, TimeoutRollbackRetrying}
  }

  predicate FailuresKnown(t: TxState)
  {
    forall b :: b in t.tx.report && t.tx.report[b] == PhaseOneFailed ==> b in t.failed
  }

  predicate AccountOk(t: TxState)
  {
    Accounted(t) && (t.tx.live ==> LiveStatus(t.tx.status)) && FailuresKnown(t)
  }

  lemma CommitTx(tx: Tx, locks: LockTable, w: Work, b: BranchSession, retrying: bool, answer: Answer)
    ensures
      var tx' := VisitCommit(tx, locks, w, b, retrying, answer).tx;
      && tx'.report == tx.report
      && (tx'.live ==> tx'.branches == if answer == Returned(PhaseTwoCommitted) then tx.branches - {b} else tx.branches)
  {
    hide Released, BranchClaims, ClaimsOf, AllAsync;
  }

  lemma AnswerTx(tx: Tx, locks: LockTable, w: Work, b: BranchSession, retrying: bool, answer: Answer)
    ensures
      var tx' := AnswerRollback(tx, locks, w, b, retrying, answer).tx;
      && tx'.report == tx.report
      && (tx'.live ==> tx'.branches == if answer == Returned(PhaseTwoRolledBack) then tx.branches - {b} else tx.branches)
  {
    hide IsTimeoutStatus, Released, BranchClaims, ClaimsOf;
  }

  lemma VisitLeaves(t: TxState, locks: LockTable, kind: Kind, b: BranchSession, answer: Answer, c: BranchSession)
    requires kind in t.jobs && c in t.tx.branches
    requires var tx' := Visited(t, locks, kind, b, answer).0.tx; tx'.live && c !in tx'.branches
    ensures c == b && answer == Returned(if kind.Commits() then PhaseTwoCommitted else PhaseTwoRolledBack)
  {
    hide VisitCommit, AnswerRollback;
    CommitTx(t.tx, locks, t.jobs[kind].work, b, kind.Retries(), answer);
    AnswerTx(t.tx, locks, t.jobs[kind].work, b, kind.Retries(), answer);
  }

  lemma EndTx(tx: Tx, locks: LockTable, w: Work)
    ensures var tx' := FinishCommit(tx, locks, w).tx; tx'.report == tx.report && (tx'.live ==> tx' == tx)
    ensures var tx' := FinishRollback(tx, locks, w).tx; tx'.report == tx.report && (tx'.live ==> tx' == tx)
  {
    hide IsTimeoutStatus, Released, ClaimsOf;
  }

  lemma EndLeaves(t: TxState, locks: LockTable, kind: Kind)
    requires kind in t.jobs && Ended(t, locks, kind).0.tx.live
    ensures Ended(t, locks, kind).0.tx == t.tx
  {
    hide FinishCommit, FinishRollback;
    EndTx(t.tx, locks, t.jobs[kind].work);
  }

  /** A branch leaves a stored transaction by one of two answers only. */
  lemma Leaves(cfg: Config, t: TxState, locks: LockTable, a: LocalAction, b: BranchSession)
    requires EnabledOn(t, a) && b in t.tx.branches
    requires var tx' := ApplyOn(cfg, t, locks, a).0.tx; tx'.live && b !in tx'.branches
    ensures Commits(a, b) || RollsBackBranch(a, b)
  {
    hide Begun, Visited, Ended, IsTimeoutStatus, Released, ClaimsOf, BranchClaims;
    match a
    case Start(kind, now, clock) => StartCases(cfg, t, locks, kind, now, clock);
    case Visit(kind, c, answer) => VisitLeaves(t, locks, kind, c, answer, b);
    case Finish(kind) => EndLeaves(t, locks, kind);
    case _ =>
  }

  /** And by those answers it does. */
  lemma Taken(cfg: Config, t: TxState, locks: LockTable, a: LocalAction, b: BranchSession)
    requires BaseOk(t) && EnabledOn(t, a) && (Commits(a, b) || RollsBackBranch(a, b))
    ensures t.tx.status != Begin && b !in ApplyOn(cfg, t, locks, a).0.tx.branches
    ensures t.tx.live ==> ApplyOn(cfg, t, locks, a).0.tx.live
  {
    HasJob(t, a.kind);
    hide BaseOk, Released, BranchClaims;
  }

  /** What a step does to the history of calls and reports. */
  predicate HistoryGrows(t: TxState, t': TxState)
  {
    t.committed <= t'.committed && t.undone <= t'.undone && t.failed <= t'.failed
  }

  lemma StartRecords(cfg: Config, t: TxState, locks: LockTable, kind: Kind, now: int, clock: int)
    requires kind in t.jobs
    ensures var t' := Begun(cfg, t, locks, kind, now, clock).0; t'.committed == t.committed && t'.undone == t.undone && t'.failed == t.failed
  {
    hide HasSaga, AllAsync, IsRetryTimeout, Elapsed;
  }

  lemma StartHistory(cfg: Config, t: TxState, locks: LockTable, kind: Kind, now: int, clock: int)
    requires kind in t.jobs
    ensures
      var t' := Begun(cfg, t, locks, kind, now, clock).0;
      t'.committed == t.committed && t'.undone == t.undone && t'.failed == t.failed && t'.tx.report == t.tx.report
  {
    hide Begun, IsRetryTimeout, Elapsed, Released;
    StartRecords(cfg, t, locks, kind, now, clock);
    StartCases(cfg, t, locks, kind, now, clock);
  }

  lemma VisitHistory(t: TxState, locks: LockTable, kind: Kind, b: BranchSession, answer: Answer)
    requires kind in t.jobs
    ensures
      var t' := Visited(t, locks, kind, b, answer).0;
      && t'.committed == (if kind.Commits() && answer == Returned(PhaseTwoCommitted) then t.committed + {b} else t.committed)
      && t'.undone == (if !kind.Commits() && answer == Returned(PhaseTwoRolledBack) then t.undone + {b} else t.undone)
      && t'.failed == t.failed && t'.tx.report == t.tx.report
  {
    hide VisitCommit, AnswerRollback;
    CommitTx(t.tx, locks, t.jobs[kind].work, b, kind.Retries(), answer);
    AnswerTx(t.tx, locks, t.jobs[kind].work, b, kind.Retries(), answer);
  }

  lemma EndHistory(t: TxState, locks: LockTable, kind: Kind)
    requires kind in t.jobs
    ensures
      var t' := Ended(t, locks, kind).0;
      t'.committed == t.committed && t'.undone == t.undone && t'.failed == t.failed && t'.tx.report == t.tx.report
  {
    hide FinishCommit, FinishRollback;
    EndTx(t.tx, locks, t.jobs[kind].work);
  }

  lemma StepHistory(cfg: Config, t: TxState, locks: LockTable, a: LocalAction)
    requires EnabledOn(t, a)
    ensures HistoryGrows(t, ApplyOn(cfg, t, locks, a).0)
    ensures FailuresKnown(t) ==> FailuresKnown(ApplyOn(cfg, t, locks, a).0)
  {
    hide Begun, Visited, Ended, Released, BranchClaims;
    match a
    case Start(kind, now, clock) => StartHistory(cfg, t, locks, kind, now, clock);
    case Visit(kind, b, answer) => VisitHistory(t, locks, kind, b, answer);
    case Finish(kind) => EndHistory(t, locks, kind);
    case _ =>
  }

  lemma Recorded(cfg: Config, t: TxState, locks: LockTable, a: LocalAction, b: BranchSession)
    requires EnabledOn(t, a) && FailuresKnown(t) && (Commits(a, b) || RollsBackBranch(a, b))
    ensures var t' := ApplyOn(cfg, t, locks, a).0; b in t'.committed || t'.Settled(b)
  {
    hide Visited, Released, BranchClaims;
    if a.Visit? {
      VisitHistory(t, locks, a.kind, b, a.answer);
    }
  }

  /** A branch is known from before the step, or stored by it. */
  lemma Registers(cfg: Config, t: TxState, locks: LockTable, a: LocalAction, b: BranchSession)
    requires EnabledOn(t, a) && b in ApplyOn(cfg, t, locks, a).0.tx.report && b !in t.tx.report
    ensures b in ApplyOn(cfg, t, locks, a).0.tx.branches && a.Register?
  {
    hide Begun, Visited, Ended, Released, BranchClaims;
    match a
    case Start(kind, now, clock) => StartHistory(cfg, t, locks, kind, now, clock);
    case Visit(kind, b, answer) => VisitHistory(t, locks, kind, b, answer);
    case Finish(kind) => EndHistory(t, locks, kind);
    case _ =>
  }

  lemma StepAccounted(cfg: Config, t: TxState, locks: LockTable, a: LocalAction)
    requires EnabledOn(t, a) && AccountOk(t) && (ApplyOn(cfg, t, locks, a).0.tx.live ==> t.tx.live)
    ensures Accounted(ApplyOn(cfg, t, locks, a).0)
  {
    var t' := ApplyOn(cfg, t, locks, a).0;
    StepHistory(cfg, t, locks, a);
    hide ApplyOn, EnabledOn, LiveStatus, FailuresKnown, Commits, RollsBackBranch;
    forall b | t'.tx.live && b in t'.tx.report ensures b in t'.tx.branches || b in t'.committed || t'.Settled(b) {
      if b !in t.tx.report {
        Registers(cfg, t, locks, a, b);
      } else if b in t.tx.branches && b !in t'.tx.branches {
        Leaves(cfg, t, locks, a, b);
        Recorded(cfg, t, locks, a, b);
      }
    }
  }

  // The status of a stored session -------------------------------------------------------------------

  lemma AnswerStatus(tx: Tx, locks: LockTable, w: Work, b: BranchSession, retrying: bool, answer: Answer)
    ensures
      var tx' := AnswerRollback(tx, locks, w, b, retrying, answer).tx;
      || tx'.status == tx.status || tx'.status == RetryStatus(tx.status)
      || (tx'.status == FailedStatus(tx.status) && !tx'.live && answer == Returned(PhaseTwoRollbackFailedCanNotRetry))
  {
    hide IsTimeoutStatus, Released, BranchClaims;
  }

  lemma CommitStatus(tx: Tx, locks: LockTable, w: Work, b: BranchSession, retrying: bool, answer: Answer)
    ensures
      var tx' := VisitCommit(tx, locks, w, b, retrying, answer).tx;
      || tx'.status == tx.status || tx'.status == CommitRetrying
      || (tx'.status == CommitFailed && !tx'.live && answer == Returned(PhaseTwoCommitFailedCanNotRetry))
  {
    hide Released, BranchClaims;
  }

  lemma VisitLive(t: TxState, locks: LockTable, kind: Kind, b: BranchSession, answer: Answer)
    requires kind in t.jobs && LiveStatus(t.tx.status)
    ensures var tx' := Visited(t, locks, kind, b, answer).0.tx; tx'.live ==> LiveStatus(tx'.status)
  {
    hide VisitCommit, AnswerRollback;
    CommitStatus(t.tx, locks, t.jobs[kind].work, b, kind.Retries(), answer);
    AnswerStatus(t.tx, locks, t.jobs[kind].work, b, kind.Retries(), answer);
  }

  lemma StepLive(cfg: Config, t: TxState, locks: LockTable, a: LocalAction)
    requires EnabledOn(t, a) && LiveStatus(t.tx.status)
    ensures var tx' := ApplyOn(cfg, t, locks, a).0.tx; tx'.live ==> LiveStatus(tx'.status)
  {
    hide Begun, Visited, Ended, IsTimeoutStatus, Released, ClaimsOf, BranchClaims;
    match a
    case Start(kind, now, clock) => StartCases(cfg, t, locks, kind, now, clock);
    case Visit(kind, b, answer) => VisitLive(t, locks, kind, b, answer);
    case Finish(kind) =>
      if Ended(t, locks, kind).0.tx.live {
        EndLeaves(t, locks, kind);
      }
    case _ =>
  }

  lemma StepAccount(cfg: Config, t: TxState, locks: LockTable, a: LocalAction)
    requires EnabledOn(t, a) && AccountOk(t) && (ApplyOn(cfg, t, locks, a).0.tx.live ==> t.tx.live)
    ensures AccountOk(ApplyOn(cfg, t, locks, a).0)
  {
    StepAccounted(cfg, t, locks, a);
    StepHistory(cfg, t, locks, a);
    if t.tx.live {
      StepLive(cfg, t, locks, a);
    }
    hide ApplyOn, EnabledOn, Accounted, FailuresKnown, LiveStatus, HistoryGrows;
  }
}
