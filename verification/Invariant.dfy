/** What every step keeps of one transaction: some of it always, the rest unless timeoutCheck wrote over a
    decision that was not its own. */
module Invariant {
  import opened Apis
  import opened Storage
  import opened Protocol

  // What always holds of one transaction ---------------------------------------------------------------

  predicate BranchesOk(tx: Tx)
  {
    && tx.branches <= tx.report.Keys
    && (forall b :: b in tx.report ==> b.XID == tx.session.XID && b.TransactionID == tx.Tid() && (b.Type == AT ==> b.AsyncCommit))
    && (!tx.live ==> tx.branches == {})
  }

  /** While a session is open nothing is decided, found or removed. */
  predicate OpenOk(t: TxState)
  {
    && (t.tx.active <==> t.tx.status == Begin)
    && (t.tx.status == Begin ==>
          && t.tx.live && t.jobs == map[] && t.picked == {} && t.missed == {} && !t.committing && !t.late
          && t.tx.branches == t.tx.report.Keys
          && forall c :: c in t.copies ==> c <= t.tx.branches)
    && (FamilyOf(t.tx.status) == ToCommit ==> t.committing)
  }

  /** A pass has all the stored branches but those that the deciding copy lacked; a retried one has all. */
  predicate WorkOk(t: TxState, kind: Kind, job: Job)
  {
    && job.work.todo <= job.work.branches <= t.tx.report.Keys
    && (!job.running ==> job.work.todo == job.work.branches)
    && t.tx.branches <= job.work.branches + (if kind.Retries() then {} else t.missed)
    && (kind.Commits() ==> t.committing)
  }

  predicate KnownOk(t: TxState)
  {
    && t.missed <= t.tx.report.Keys
    && (forall c :: c in t.copies ==> c <= t.tx.report.Keys)
    && (forall kind :: kind in t.picked ==> kind.Retries() && kind !in t.jobs && (kind.Commits() ==> t.committing))
    && (forall kind :: kind in t.jobs ==> WorkOk(t, kind, t.jobs[kind]))
  }

  predicate BaseOk(t: TxState)
  {
    BranchesOk(t.tx) && OpenOk(t) && KnownOk(t)
  }

  lemma WorkShrinks(t: TxState, t': TxState)
    requires KnownOk(t) && t'.tx.branches <= t.tx.branches && t'.tx.report.Keys == t.tx.report.Keys
    requires t'.missed == t.missed && t'.committing == t.committing
    ensures forall kind :: kind in t.jobs ==> WorkOk(t', kind, t.jobs[kind])
  {
    forall kind | kind in t.jobs ensures WorkOk(t', kind, t.jobs[kind]) {
      assert WorkOk(t, kind, t.jobs[kind]);
    }
  }

  /** What a pass does to its transaction and to its own work. */
  predicate PassStep(t: TxState, kind: Kind, n: Next)
    requires kind in t.jobs
  {
    && n.tx.session == t.tx.session && n.tx.report == t.tx.report && n.tx.active == t.tx.active
    && n.tx.status != Begin && (FamilyOf(n.tx.status) == ToCommit ==> t.committing)
    && (n.tx.live ==> t.tx.live) && n.tx.branches <= t.tx.branches && (!n.tx.live ==> n.tx.branches == {})
    && (n.outcome.GoesOn? ==>
          && n.work.todo <= n.work.branches <= t.jobs[kind].work.branches
          && n.tx.branches <= n.work.branches + (if kind.Retries() then {} else t.missed))
  }

  lemma JobKnown(t: TxState, kind: Kind, job: Job)
    requires KnownOk(t) && kind in t.jobs
    ensures KnownOk(t.(jobs := t.jobs - {kind}))
    ensures WorkOk(t, kind, job) ==> KnownOk(t.(jobs := t.jobs[kind := job]))
  {
    WorkShrinks(t, t.(jobs := t.jobs - {kind}));
    WorkShrinks(t, t.(jobs := t.jobs[kind := job]));
  }

  lemma PassStepKnown(t: TxState, t1: TxState, kind: Kind, n: Next)
    requires BaseOk(t) && kind in t.jobs && PassStep(t, kind, n)
    requires t1 == t.(committed := t1.committed, undone := t1.undone)
    ensures KnownOk(After(t1, kind, n).0)
  {
    hide FamilyOf, OpenOk;
    assert WorkOk(t, kind, t.jobs[kind]);
    var moved := t1.(tx := n.tx);
    WorkShrinks(t, moved);
    assert KnownOk(moved);
    JobKnown(moved, kind, Job(n.work, true));
    hide KnownOk;
  }

  lemma PassStepBase(t: TxState, t1: TxState, kind: Kind, n: Next)
    requires BaseOk(t) && kind in t.jobs && t.tx.status != Begin && PassStep(t, kind, n)
    requires t1 == t.(committed := t1.committed, undone := t1.undone)
    ensures BaseOk(After(t1, kind, n).0)
  {
    PassStepKnown(t, t1, kind, n);
    hide KnownOk, FamilyOf;
  }

  lemma HasJob(t: TxState, kind: Kind)
    requires BaseOk(t) && kind in t.jobs
    ensures t.tx.status != Begin && !t.tx.active && WorkOk(t, kind, t.jobs[kind])
  {
  }

  lemma SettlePasses(t: TxState, locks: LockTable, kind: Kind, b: BranchSession)
    requires BaseOk(t) && kind in t.jobs && b in t.jobs[kind].work.todo
    ensures PassStep(t, kind, Settle(t.tx, locks, t.jobs[kind].work, b))
  {
    HasJob(t, kind);
  }

  lemma ConcludePasses(t: TxState, locks: LockTable, kind: Kind, status: GlobalStatus, done: bool)
    requires BaseOk(t) && kind in t.jobs && status != Begin && (FamilyOf(status) == ToCommit ==> kind.Commits())
    ensures PassStep(t, kind, Conclude(t.tx, locks, t.jobs[kind].work, status, done))
  {
    HasJob(t, kind);
  }

  lemma GiveUpPasses(t: TxState, locks: LockTable, kind: Kind, retrying: bool, status: GlobalStatus, error: bool)
    requires BaseOk(t) && kind in t.jobs && status != Begin && (FamilyOf(status) == ToCommit ==> kind.Commits())
    ensures PassStep(t, kind, GiveUp(t.tx, locks, t.jobs[kind].work, retrying, status, error))
  {
    HasJob(t, kind);
  }

  lemma SkipPasses(t: TxState, locks: LockTable, kind: Kind, b: BranchSession)
    requires BaseOk(t) && kind in t.jobs
    ensures PassStep(t, kind, Skip(t.tx, locks, t.jobs[kind].work, b))
  {
    HasJob(t, kind);
  }

  lemma VisitCommitPasses(t: TxState, locks: LockTable, kind: Kind, b: BranchSession, answer: Answer)
    requires BaseOk(t) && kind in t.jobs && b in t.jobs[kind].work.todo && kind.Commits()
    ensures PassStep(t, kind, VisitCommit(t.tx, locks, t.jobs[kind].work, b, kind.Retries(), answer))
  {
    SettlePasses(t, locks, kind, b);
    SkipPasses(t, locks, kind, b);
    ConcludePasses(t, locks, kind, CommitFailed, false);
    GiveUpPasses(t, locks, kind, kind.Retries(), CommitRetrying, answer.CallError?);
    hide BaseOk, PassStep, Settle, Skip, Conclude, GiveUp;
  }

  lemma NotToCommit(s: GlobalStatus)
    requires s in {TimeoutRollbackFailed, RollbackFailed, TimeoutRollbackRetrying, RollbackRetrying}
    ensures FamilyOf(s) != ToCommit
  {
  }

  lemma AnswerRollbackPasses(t: TxState, locks: LockTable, kind: Kind, b: BranchSession, answer: Answer)
    requires BaseOk(t) && kind in t.jobs && b in t.jobs[kind].work.todo && !kind.Commits()
    ensures PassStep(t, kind, AnswerRollback(t.tx, locks, t.jobs[kind].work, b, kind.Retries(), answer))
  {
    var failed := if IsTimeoutStatus(t.tx.status) then TimeoutRollbackFailed else RollbackFailed;
    var retry := if IsTimeoutStatus(t.tx.status) then TimeoutRollbackRetrying else RollbackRetrying;
    NotToCommit(failed);
    NotToCommit(retry);
    hide FamilyOf, IsTimeoutStatus, BaseOk, PassStep, Settle, Conclude, GiveUp;
    SettlePasses(t, locks, kind, b);
    ConcludePasses(t, locks, kind, failed, false);
    GiveUpPasses(t, locks, kind, kind.Retries(), retry, answer.CallError?);
  }

  lemma FinishPasses(t: TxState, locks: LockTable, kind: Kind)
    requires BaseOk(t) && kind in t.jobs
    ensures PassStep(t, kind, if kind.Commits() then FinishCommit(t.tx, locks, t.jobs[kind].work) else FinishRollback(t.tx, locks, t.jobs[kind].work))
  {
    HasJob(t, kind);
    var status := if kind.Commits() then Committed else if IsTimeoutStatus(t.tx.status) then TimeoutRolledBack else RolledBack;
    ConcludePasses(t, locks, kind, status, true);
  }

  lemma RegisterBase(cfg: Config, t: TxState, locks: LockTable, b: BranchSession)
    requires BaseOk(t) && EnabledOn(t, Register(b))
    ensures BaseOk(ApplyOn(cfg, t, locks, Register(b)).0)
  {
  }

  lemma ReportBase(cfg: Config, t: TxState, locks: LockTable, b: BranchSession, status: BranchStatus)
    requires BaseOk(t) && EnabledOn(t, Report(b, status))
    ensures BaseOk(ApplyOn(cfg, t, locks, Report(b, status)).0)
  {
    var t' := ApplyOn(cfg, t, locks, Report(b, status)).0;
    assert t'.tx.report.Keys == t.tx.report.Keys;
    WorkShrinks(t, t');
  }

  lemma LookUpBase(cfg: Config, t: TxState, locks: LockTable)
    requires BaseOk(t)
    ensures BaseOk(ApplyOn(cfg, t, locks, LookUp).0)
  {
    WorkShrinks(t, ApplyOn(cfg, t, locks, LookUp).0);
  }

  lemma DecidedBase(t: TxState, tx: Tx, kind: Kind, copy: set<BranchSession>)
    requires BaseOk(t) && copy in t.copies && t.tx.status == Begin
    requires (kind == SyncCommit && tx.status == Committing) || (kind == SyncRollback && tx.status == RollingBack)
    requires tx == t.tx.(active := false, status := tx.status)
    ensures BaseOk(Decided(t, tx, kind, copy))
  {
  }

  lemma ClosedBase(t: TxState)
    requires BaseOk(t) && t.tx.status != Begin
    ensures BaseOk(t.(tx := t.tx.(active := false)))
  {
    WorkShrinks(t, t.(tx := t.tx.(active := false)));
  }

  lemma CommitBase(cfg: Config, t: TxState, locks: LockTable, copy: set<BranchSession>)
    requires BaseOk(t) && EnabledOn(t, Commit(copy))
    ensures BaseOk(ApplyOn(cfg, t, locks, Commit(copy)).0)
  {
    if t.tx.status == Begin {
      DecidedBase(t, DecideCommit(t.tx, locks, copy).1, SyncCommit, copy);
    } else {
      ClosedBase(t);
    }
    hide BaseOk;
  }

  lemma RollbackBase(cfg: Config, t: TxState, locks: LockTable, copy: set<BranchSession>)
    requires BaseOk(t) && EnabledOn(t, Rollback(copy))
    ensures BaseOk(ApplyOn(cfg, t, locks, Rollback(copy)).0)
  {
    if t.tx.status == Begin {
      DecidedBase(t, DecideRollback(t.tx).1, SyncRollback, copy);
    } else {
      ClosedBase(t);
    }
    hide BaseOk;
  }

  lemma ScanBase(t: TxState)
    requires BaseOk(t)
    ensures BaseOk(t.(scanned := true)) && BaseOk(t.(scanned := false))
  {
    WorkShrinks(t, t.(scanned := true));
    WorkShrinks(t, t.(scanned := false));
  }

  lemma TimeoutBase(cfg: Config, t: TxState, locks: LockTable, now: int)
    requires BaseOk(t) && EnabledOn(t, Timeout(now))
    ensures BaseOk(ApplyOn(cfg, t, locks, Timeout(now)).0)
  {
    WorkShrinks(t, ApplyOn(cfg, t, locks, Timeout(now)).0);
  }

  lemma PickBase(cfg: Config, t: TxState, locks: LockTable, kind: Kind)
    requires BaseOk(t) && EnabledOn(t, Pick(kind))
    ensures BaseOk(ApplyOn(cfg, t, locks, Pick(kind)).0)
  {
    WorkShrinks(t, ApplyOn(cfg, t, locks, Pick(kind)).0);
  }

  lemma FindBase(cfg: Config, t: TxState, locks: LockTable, kind: Kind)
    requires BaseOk(t) && EnabledOn(t, Find(kind))
    ensures BaseOk(ApplyOn(cfg, t, locks, Find(kind)).0)
  {
    WorkShrinks(t, t.(picked := t.picked - {kind}));
  }

  lemma DropBase(t: TxState, kind: Kind, tx: Tx)
    requires BaseOk(t) && kind in t.jobs
    requires tx == t.tx || tx == Removed(t.tx) || (tx == t.tx.(status := AsyncCommitting) && kind == SyncCommit)
    ensures BaseOk(Drop(t, kind, tx))
  {
    HasJob(t, kind);
    WorkShrinks(t, t.(tx := tx));
  }

  lemma RunningBase(t: TxState, kind: Kind)
    requires BaseOk(t) && kind in t.jobs
    ensures BaseOk(t.(jobs := t.jobs[kind := t.jobs[kind].(running := true)]))
  {
    hide FamilyOf;
    HasJob(t, kind);
    WorkShrinks(t, t.(jobs := t.jobs[kind := t.jobs[kind].(running := true)]));
  }

  lemma StartBase(cfg: Config, t: TxState, locks: LockTable, kind: Kind, now: int, clock: int)
    requires BaseOk(t) && EnabledOn(t, Start(kind, now, clock))
    ensures BaseOk(Begun(cfg, t, locks, kind, now, clock).0)
  {
    hide BaseOk, Drop;
    DropBase(t, kind, t.tx);
    DropBase(t, kind, Removed(t.tx));
    if kind == SyncCommit {
      DropBase(t, kind, t.tx.(status := AsyncCommitting));
    }
    RunningBase(t, kind);
  }

  lemma VisitBase(t: TxState, locks: LockTable, kind: Kind, b: BranchSession, answer: Answer)
    requires BaseOk(t) && EnabledOn(t, Visit(kind, b, answer))
    ensures BaseOk(Visited(t, locks, kind, b, answer).0)
  {
    HasJob(t, kind);
    var w := t.jobs[kind].work;
    if kind.Commits() {
      VisitCommitPasses(t, locks, kind, b, answer);
      PassStepBase(t, t.(committed := if answer == Returned(PhaseTwoCommitted) then t.committed + {b} else t.committed), kind,
                   VisitCommit(t.tx, locks, w, b, kind.Retries(), answer));
    } else {
      AnswerRollbackPasses(t, locks, kind, b, answer);
      PassStepBase(t, t.(undone := if answer == Returned(PhaseTwoRolledBack) then t.undone + {b} else t.undone), kind,
                   AnswerRollback(t.tx, locks, w, b, kind.Retries(), answer));
    }
    hide BaseOk, PassStep, VisitCommit, AnswerRollback, After;
  }

  lemma StepBase(cfg: Config, t: TxState, locks: LockTable, a: LocalAction)
    requires BaseOk(t) && EnabledOn(t, a)
    ensures BaseOk(ApplyOn(cfg, t, locks, a).0)
  {
    match a
    case Register(b) => RegisterBase(cfg, t, locks, b);
    case Report(b, status) => ReportBase(cfg, t, locks, b, status);
    case LookUp => LookUpBase(cfg, t, locks);
    case Commit(copy) => CommitBase(cfg, t, locks, copy);
    case Rollback(copy) => RollbackBase(cfg, t, locks, copy);
    case Scan => ScanBase(t);
    case Timeout(now) => TimeoutBase(cfg, t, locks, now);
    case Pick(kind) => PickBase(cfg, t, locks, kind);
    case Find(kind) => FindBase(cfg, t, locks, kind);
    case Start(kind, now, clock) => StartBase(cfg, t, locks, kind, now, clock);
    case Visit(kind, b, answer) => VisitBase(t, locks, kind, b, answer);
    case Spare(kind, b) =>
      HasJob(t, kind);
      SettlePasses(t, locks, kind, b);
      PassStepBase(t, t, kind, Settle(t.tx, locks, t.jobs[kind].work, b));
    case Finish(kind) =>
      HasJob(t, kind);
      FinishPasses(t, locks, kind);
      PassStepBase(t, t, kind, if kind.Commits() then FinishCommit(t.tx, locks, t.jobs[kind].work) else FinishRollback(t.tx, locks, t.jobs[kind].work));
  }

  // What holds unless timeoutCheck wrote too late ------------------------------------------------------

  /** A stored session is in one of seven states. */
  predicate StatusOk(t: TxState)
  {
    && t.tx.status != TimeoutRollbackRetrying
    && (t.tx.status == Begin || FamilyOf(t.tx.status) != Undecided)
    && (t.tx.live ==> t.tx.status == Begin || CommitPhase(t.tx.status) || RollbackPhase(t.tx.status))
    && (t.tx.status == AsyncCommitting ==> t.tx.live && forall b :: b in t.tx.branches ==> b.AsyncCommit || b in t.missed)
  }

  predicate RollsBack(s: GlobalStatus) { FamilyOf(s) == ToRollback || FamilyOf(s) == ToTimeout }

  /** What a pass may rely on. */
  predicate JobOk(t: TxState, kind: Kind, w: Work)
  {
    && (kind == SyncCommit ==> t.tx.live && t.tx.status == Committing && w.branches !! t.missed && t.tx.branches == w.branches + t.missed)
    && (kind == RetryCommit ==> t.tx.live && t.tx.status == CommitRetrying && t.tx.branches == w.branches)
    && (kind == AsyncCommit ==> t.tx.live && t.tx.status == AsyncCommitting && t.tx.branches == w.branches)
    && (kind == RetryRollback ==> RollsBack(t.tx.status))
    && (kind == SyncRollback ==> FamilyOf(t.tx.status) == ToRollback)
  }

  predicate PickOk(t: TxState, kind: Kind)
  {
    && (kind == RetryCommit ==> t.tx.live && t.tx.status == CommitRetrying)
    && (kind == AsyncCommit ==> t.tx.live && t.tx.status == AsyncCommitting)
    && (kind == RetryRollback ==> RollsBack(t.tx.status))
  }

  predicate PassesOk(t: TxState)
  {
    && (forall kind :: kind in t.jobs ==> JobOk(t, kind, t.jobs[kind].work))
    && (forall kind :: kind in t.picked ==> PickOk(t, kind))
  }

  /** A branch leaves the store only with the answer its transaction's direction calls for. */
  predicate HistoryOk(t: TxState)
  {
    && (forall b :: b in t.tx.report && b !in t.tx.branches && t.tx.live ==>
          && (CommitPhase(t.tx.status) ==> b in t.committed)
          && (RollbackPhase(t.tx.status) ==> t.Settled(b)))
    && (t.tx.status == Committed ==> t.AllCommitted())
    && (forall b :: b in t.tx.report && t.tx.report[b] == PhaseOneFailed ==> b in t.failed)
  }

  predicate TimelyOk(t: TxState)
  {
    StatusOk(t) && PassesOk(t) && HistoryOk(t)
  }

  lemma NoPick(t: TxState, kind: Kind, j: Kind)
    requires BaseOk(t) && TimelyOk(t) && kind.Commits() && kind in t.jobs
    ensures j !in t.picked
  {
    assert JobOk(t, kind, t.jobs[kind].work);
  }

  /** A transaction that commits has one pass at most. */
  lemma OnePass(t: TxState, kind: Kind)
    requires BaseOk(t) && TimelyOk(t) && kind.Commits() && (kind in t.jobs || kind in t.picked)
    ensures t.tx.live && CommitPhase(t.tx.status)
    ensures kind in t.jobs ==> t.jobs.Keys == {kind} && t.picked == {} && JobOk(t, kind, t.jobs[kind].work)
  {
    if kind in t.jobs {
      assert JobOk(t, kind, t.jobs[kind].work);
      forall j | j in t.jobs ensures j == kind {
        assert JobOk(t, j, t.jobs[j].work);
      }
      forall j ensures j !in t.picked {
        NoPick(t, kind, j);
      }
    } else {
      assert PickOk(t, kind);
    }
  }

  /** Passes of a rollback need no more than the direction. */
  lemma SameDirection(t: TxState, t': TxState)
    requires PassesOk(t) && RollsBack(t.tx.status) && FamilyOf(t'.tx.status) == FamilyOf(t.tx.status)
    requires t'.jobs.Keys <= t.jobs.Keys && t'.picked <= t.picked
    ensures PassesOk(t')
  {
    forall j | j in t'.jobs ensures JobOk(t', j, t'.jobs[j].work) {
      assert JobOk(t, j, t.jobs[j].work);
    }
    forall j | j in t'.picked ensures PickOk(t', j) {
      assert PickOk(t, j);
    }
  }

  /** Nothing that a pass relies on has changed. */
  lemma SamePasses(t: TxState, t': TxState)
    requires PassesOk(t) && t'.tx.status == t.tx.status && t'.tx.live == t.tx.live && t'.tx.branches == t.tx.branches && t'.missed == t.missed
    requires t'.jobs.Keys <= t.jobs.Keys && (forall j :: j in t'.jobs ==> t'.jobs[j].work == t.jobs[j].work) && t'.picked <= t.picked
    ensures PassesOk(t')
  {
    forall j | j in t'.jobs ensures JobOk(t', j, t'.jobs[j].work) {
      assert JobOk(t, j, t.jobs[j].work);
    }
    forall j | j in t'.picked ensures PickOk(t', j) {
      assert PickOk(t, j);
    }
  }

  lemma RegisterTimely(cfg: Config, t: TxState, locks: LockTable, b: BranchSession)
    requires BaseOk(t) && TimelyOk(t) && EnabledOn(t, Register(b))
    ensures TimelyOk(ApplyOn(cfg, t, locks, Register(b)).0)
  {
  }

  lemma ReportTimely(cfg: Config, t: TxState, locks: LockTable, b: BranchSession, status: BranchStatus)
    requires TimelyOk(t) && EnabledOn(t, Report(b, status))
    ensures TimelyOk(ApplyOn(cfg, t, locks, Report(b, status)).0)
  {
    var t' := ApplyOn(cfg, t, locks, Report(b, status)).0;
    assert t'.tx.report.Keys == t.tx.report.Keys;
    SamePasses(t, t');
    hide PassesOk;
  }

  lemma QuietTimely(t: TxState, t': TxState)
    requires TimelyOk(t) && t' == t.(tx := t.tx.(active := t'.tx.active), copies := t'.copies, scanned := t'.scanned, late := t'.late)
    ensures TimelyOk(t')
  {
    SamePasses(t, t');
    hide PassesOk;
  }

  lemma DecidedTimely(t: TxState, tx: Tx, kind: Kind, copy: set<BranchSession>)
    requires BaseOk(t) && TimelyOk(t) && copy in t.copies && t.tx.status == Begin
    requires (kind == SyncCommit && tx.status == Committing) || (kind == SyncRollback && tx.status == RollingBack)
    requires tx == t.tx.(active := false, status := tx.status)
    ensures TimelyOk(Decided(t, tx, kind, copy))
  {
    hide KnownOk;
    assert t.tx.branches == copy + (t.tx.branches - copy);
  }

  lemma CommitTimely(cfg: Config, t: TxState, locks: LockTable, copy: set<BranchSession>)
    requires BaseOk(t) && TimelyOk(t) && EnabledOn(t, Commit(copy))
    ensures TimelyOk(ApplyOn(cfg, t, locks, Commit(copy)).0)
  {
    hide TimelyOk, BaseOk;
    if t.tx.status == Begin {
      DecidedTimely(t, DecideCommit(t.tx, locks, copy).1, SyncCommit, copy);
    } else {
      QuietTimely(t, t.(tx := t.tx.(active := false)));
    }
  }

  lemma RollbackTimely(cfg: Config, t: TxState, locks: LockTable, copy: set<BranchSession>)
    requires BaseOk(t) && TimelyOk(t) && EnabledOn(t, Rollback(copy))
    ensures TimelyOk(ApplyOn(cfg, t, locks, Rollback(copy)).0)
  {
    hide TimelyOk, BaseOk;
    if t.tx.status == Begin {
      DecidedTimely(t, DecideRollback(t.tx).1, SyncRollback, copy);
    } else {
      QuietTimely(t, t.(tx := t.tx.(active := false)));
    }
  }

  lemma TimeoutTimely(cfg: Config, t: TxState, locks: LockTable, now: int)
    requires BaseOk(t) && TimelyOk(t) && EnabledOn(t, Timeout(now)) && !TooLate(t.tx, now)
    ensures TimelyOk(ApplyOn(cfg, t, locks, Timeout(now)).0)
  {
    var t' := ApplyOn(cfg, t, locks, Timeout(now)).0;
    if !Elapsed(now, t.tx.session.BeginTime, t.tx.session.Timeout) {
      QuietTimely(t, t');
    } else if t.tx.status != Begin {
      SameDirection(t, t');
      hide PassesOk, KnownOk;
    }
  }

  lemma PickTimely(cfg: Config, t: TxState, locks: LockTable, kind: Kind)
    requires TimelyOk(t) && EnabledOn(t, Pick(kind))
    ensures TimelyOk(ApplyOn(cfg, t, locks, Pick(kind)).0)
  {
    var t' := ApplyOn(cfg, t, locks, Pick(kind)).0;
    SamePasses(t, t'.(picked := t.picked));
    assert PickOk(t', kind);
    forall j | j in t'.picked ensures PickOk(t', j) {
      if j != kind {
        assert PickOk(t, j);
      }
    }
    hide HistoryOk, StatusOk;
  }

  lemma FindTimely(cfg: Config, t: TxState, locks: LockTable, kind: Kind)
    requires BaseOk(t) && TimelyOk(t) && EnabledOn(t, Find(kind))
    ensures TimelyOk(ApplyOn(cfg, t, locks, Find(kind)).0)
  {
    hide FamilyOf, OpenOk;
    var t' := ApplyOn(cfg, t, locks, Find(kind)).0;
    assert PickOk(t, kind);
    SamePasses(t, t.(picked := t.picked - {kind}));
    forall j | j in t'.jobs ensures JobOk(t', j, t'.jobs[j].work) {
      if j != kind {
        assert JobOk(t, j, t.jobs[j].work);
      }
    }
  }

  lemma DropTimely(t: TxState, kind: Kind)
    requires TimelyOk(t) && kind in t.jobs
    ensures TimelyOk(Drop(t, kind, t.tx))
  {
    SamePasses(t, Drop(t, kind, t.tx));
    hide PassesOk, FamilyOf;
  }

  lemma RunningTimely(t: TxState, kind: Kind)
    requires TimelyOk(t) && kind in t.jobs
    ensures TimelyOk(t.(jobs := t.jobs[kind := t.jobs[kind].(running := true)]))
  {
    SamePasses(t, t.(jobs := t.jobs[kind := t.jobs[kind].(running := true)]));
    hide PassesOk, FamilyOf;
  }

  lemma RemoveTimely(t: TxState, kind: Kind)
    requires BaseOk(t) && TimelyOk(t) && kind in t.jobs && (kind == RetryCommit || kind == RetryRollback)
    ensures TimelyOk(Drop(t, kind, Removed(t.tx)))
  {
    assert JobOk(t, kind, t.jobs[kind].work);
    if kind == RetryCommit {
      OnePass(t, kind);
    } else {
      SameDirection(t, Drop(t, kind, Removed(t.tx)));
      hide PassesOk;
    }
  }

  lemma AsyncTimely(t: TxState)
    requires BaseOk(t) && TimelyOk(t) && SyncCommit in t.jobs && AllAsync(t.jobs[SyncCommit].work.branches)
    ensures TimelyOk(Drop(t, SyncCommit, t.tx.(status := AsyncCommitting)))
  {
    OnePass(t, SyncCommit);
    hide KnownOk;
  }

  lemma StartTimely(cfg: Config, t: TxState, locks: LockTable, kind: Kind, now: int, clock: int)
    requires BaseOk(t) && TimelyOk(t) && EnabledOn(t, Start(kind, now, clock))
    ensures TimelyOk(Begun(cfg, t, locks, kind, now, clock).0)
  {
    hide TimelyOk, BaseOk;
    DropTimely(t, kind);
    RunningTimely(t, kind);
    if kind == RetryCommit || kind == RetryRollback {
      RemoveTimely(t, kind);
    } else if kind == SyncCommit && AllAsync(t.jobs[kind].work.branches) {
      AsyncTimely(t);
    }
  }

  lemma SettleCommitTimely(t: TxState, locks: LockTable, kind: Kind, b: BranchSession)
    requires BaseOk(t) && TimelyOk(t) && kind.Commits() && kind in t.jobs && b in t.jobs[kind].work.todo
    ensures TimelyOk(After(t.(committed := t.committed + {b}), kind, Settle(t.tx, locks, t.jobs[kind].work, b)).0)
  {
    OnePass(t, kind);
    HasJob(t, kind);
    hide KnownOk, OpenOk;
  }

  lemma SkipTimely(t: TxState, locks: LockTable, kind: Kind, b: BranchSession)
    requires BaseOk(t) && TimelyOk(t) && kind.Commits() && kind in t.jobs
    ensures TimelyOk(After(t, kind, Skip(t.tx, locks, t.jobs[kind].work, b)).0)
  {
    OnePass(t, kind);
    hide KnownOk, OpenOk, FamilyOf;
  }

  lemma GiveUpCommitTimely(t: TxState, locks: LockTable, kind: Kind, error: bool)
    requires BaseOk(t) && TimelyOk(t) && kind.Commits() && kind in t.jobs
    ensures TimelyOk(After(t, kind, GiveUp(t.tx, locks, t.jobs[kind].work, kind.Retries(), CommitRetrying, error)).0)
  {
    OnePass(t, kind);
    hide KnownOk, OpenOk;
  }

  lemma ConcludeCommitTimely(t: TxState, locks: LockTable, kind: Kind, status: GlobalStatus, done: bool)
    requires BaseOk(t) && TimelyOk(t) && kind.Commits() && kind in t.jobs
    requires status == CommitFailed || (status == Committed && t.tx.branches == {})
    ensures TimelyOk(After(t, kind, Conclude(t.tx, locks, t.jobs[kind].work, status, done)).0)
  {
    OnePass(t, kind);
    hide KnownOk, OpenOk;
  }

  lemma VisitCommitTimely(t: TxState, locks: LockTable, kind: Kind, b: BranchSession, answer: Answer)
    requires BaseOk(t) && TimelyOk(t) && EnabledOn(t, Visit(kind, b, answer)) && kind.Commits()
    ensures TimelyOk(Visited(t, locks, kind, b, answer).0)
  {
    hide TimelyOk, BaseOk, Settle, Skip, Conclude, GiveUp, After;
    var w := t.jobs[kind].work;
    if answer == Returned(PhaseTwoCommitted) {
      SettleCommitTimely(t, locks, kind, b);
    } else {
      assert t.(committed := t.committed) == t;
      if answer.CallError? || (answer.status != PhaseTwoCommitFailedCanNotRetry && !(kind.Retries() && AllAsync(w.branches))) {
        GiveUpCommitTimely(t, locks, kind, answer.CallError?);
      } else if AllAsync(w.branches) {
        SkipTimely(t, locks, kind, b);
      } else {
        ConcludeCommitTimely(t, locks, kind, CommitFailed, false);
      }
    }
  }

  lemma HasRollback(t: TxState, kind: Kind)
    requires TimelyOk(t) && !kind.Commits() && kind in t.jobs
    ensures RollsBack(t.tx.status) && (kind == SyncRollback ==> FamilyOf(t.tx.status) == ToRollback)
  {
    assert JobOk(t, kind, t.jobs[kind].work);
  }

  lemma SettledDirection(t: TxState, locks: LockTable, kind: Kind, b: BranchSession)
    requires PassesOk(t) && RollsBack(t.tx.status) && !kind.Commits() && kind in t.jobs
    ensures PassesOk(After(t, kind, Settle(t.tx, locks, t.jobs[kind].work, b)).0)
    ensures CommitPhase(t.tx.status) ==> !RollsBack(t.tx.status)
  {
    SameDirection(t, After(t, kind, Settle(t.tx, locks, t.jobs[kind].work, b)).0);
  }

  /** A rollback pass takes out a branch that is undone or was reported as failed. */
  lemma SettleRollbackTimely(t: TxState, locks: LockTable, kind: Kind, b: BranchSession)
    requires BaseOk(t) && TimelyOk(t) && !kind.Commits() && kind in t.jobs && t.Settled(b)
    ensures TimelyOk(After(t, kind, Settle(t.tx, locks, t.jobs[kind].work, b)).0)
  {
    hide KnownOk, OpenOk;
    HasRollback(t, kind);
    SettledDirection(t, locks, kind, b);
    hide PassesOk, FamilyOf, RollsBack;
  }

  lemma UndoneTimely(t: TxState, b: BranchSession)
    requires TimelyOk(t)
    ensures TimelyOk(t.(undone := t.undone + {b}))
  {
    SamePasses(t, t.(undone := t.undone + {b}));
    hide PassesOk, FamilyOf;
  }

  /** It writes statuses of its own direction only, and removes the session with a final one. */
  lemma RollbackWrites(t: TxState, kind: Kind, tx: Tx)
    requires BaseOk(t) && TimelyOk(t) && !kind.Commits() && kind in t.jobs
    requires tx == t.tx.(status := tx.status) || tx == Removed(t.tx.(status := tx.status))
    requires FamilyOf(tx.status) == FamilyOf(t.tx.status) && tx.status != TimeoutRollbackRetrying
    requires tx.live ==> RollbackPhase(tx.status)
    ensures TimelyOk(Drop(t, kind, tx))
  {
    HasRollback(t, kind);
    SameDirection(t, Drop(t, kind, tx));
    hide PassesOk, KnownOk, OpenOk;
  }

  function RetryStatus(s: GlobalStatus): GlobalStatus { if IsTimeoutStatus(s) then TimeoutRollbackRetrying else RollbackRetrying }
  function FailedStatus(s: GlobalStatus): GlobalStatus { if IsTimeoutStatus(s) then TimeoutRollbackFailed else RollbackFailed }
  function DoneStatus(s: GlobalStatus): GlobalStatus { if IsTimeoutStatus(s) then TimeoutRolledBack else RolledBack }

  lemma FinalStatuses(s: GlobalStatus)
    requires RollsBack(s)
    ensures FamilyOf(FailedStatus(s)) == FamilyOf(DoneStatus(s)) == FamilyOf(RetryStatus(s)) == FamilyOf(s)
    ensures FamilyOf(s) == ToRollback ==> RetryStatus(s) == RollbackRetrying
  {
  }

  lemma GiveUpRollbackTimely(t: TxState, locks: LockTable, kind: Kind, error: bool)
    requires BaseOk(t) && TimelyOk(t) && !kind.Commits() && kind in t.jobs
    ensures TimelyOk(After(t, kind, GiveUp(t.tx, locks, t.jobs[kind].work, kind.Retries(), RetryStatus(t.tx.status), error)).0)
  {
    hide TimelyOk, BaseOk, FamilyOf, RetryStatus;
    HasRollback(t, kind);
    FinalStatuses(t.tx.status);
    if kind.Retries() {
      DropTimely(t, kind);
    } else {
      RollbackWrites(t, kind, t.tx.(status := RollbackRetrying));
    }
  }

  lemma ConcludeRollbackTimely(t: TxState, locks: LockTable, kind: Kind, status: GlobalStatus, done: bool)
    requires BaseOk(t) && TimelyOk(t) && !kind.Commits() && kind in t.jobs
    requires status == FailedStatus(t.tx.status) || status == DoneStatus(t.tx.status)
    ensures TimelyOk(After(t, kind, Conclude(t.tx, locks, t.jobs[kind].work, status, done)).0)
  {
    hide TimelyOk, BaseOk, FamilyOf;
    HasRollback(t, kind);
    FinalStatuses(t.tx.status);
    RollbackWrites(t, kind, Conclude(t.tx, locks, t.jobs[kind].work, status, done).tx);
  }

  lemma AnswerRollbackTimely(t: TxState, locks: LockTable, kind: Kind, b: BranchSession, answer: Answer)
    requires BaseOk(t) && TimelyOk(t) && EnabledOn(t, Visit(kind, b, answer)) && !kind.Commits()
    ensures TimelyOk(Visited(t, locks, kind, b, answer).0)
  {
    hide TimelyOk, Settle, Conclude, GiveUp, After, IsTimeoutStatus;
    var t' := t.(undone := t.undone + {b});
    UndoneTimely(t, b);
    assert BaseOk(t') by { WorkShrinks(t, t'); }
    hide BaseOk;
    SettleRollbackTimely(t', locks, kind, b);
    ConcludeRollbackTimely(t, locks, kind, FailedStatus(t.tx.status), false);
    GiveUpRollbackTimely(t, locks, kind, answer.CallError?);
    assert t.(undone := t.undone) == t;
  }

  lemma FinishTimely(t: TxState, locks: LockTable, kind: Kind)
    requires BaseOk(t) && TimelyOk(t) && EnabledOn(t, Finish(kind))
    ensures TimelyOk(Ended(t, locks, kind).0)
    ensures t.tx.live && t.tx.branches != {} ==> Ended(t, locks, kind).0.tx == t.tx
  {
    hide TimelyOk, BaseOk, Conclude, IsTimeoutStatus;
    DropTimely(t, kind);
    if kind.Commits() {
      OnePass(t, kind);
      if t.tx.branches == {} {
        ConcludeCommitTimely(t, locks, kind, Committed, true);
      }
    } else {
      ConcludeRollbackTimely(t, locks, kind, DoneStatus(t.tx.status), true);
    }
  }

  lemma SpareTimely(t: TxState, locks: LockTable, kind: Kind, b: BranchSession)
    requires BaseOk(t) && TimelyOk(t) && EnabledOn(t, Spare(kind, b))
    ensures TimelyOk(After(t, kind, Settle(t.tx, locks, t.jobs[kind].work, b)).0)
  {
    assert b in t.failed by { hide PassesOk, StatusOk; }
    SettleRollbackTimely(t, locks, kind, b);
  }

  /** Every step keeps it, but a write of timeoutCheck that comes too late. */
  lemma StepTimely(cfg: Config, t: TxState, locks: LockTable, a: LocalAction)
    requires BaseOk(t) && TimelyOk(t) && EnabledOn(t, a) && (a.Timeout? ==> !TooLate(t.tx, a.now))
    ensures TimelyOk(ApplyOn(cfg, t, locks, a).0)
  {
    hide TimelyOk, BaseOk;
    match a
    case Register(b) => RegisterTimely(cfg, t, locks, b);
    case Report(b, status) => ReportTimely(cfg, t, locks, b, status);
    case LookUp => QuietTimely(t, ApplyOn(cfg, t, locks, a).0);
    case Commit(copy) => CommitTimely(cfg, t, locks, copy);
    case Rollback(copy) => RollbackTimely(cfg, t, locks, copy);
    case Scan => QuietTimely(t, ApplyOn(cfg, t, locks, a).0);
    case Timeout(now) => TimeoutTimely(cfg, t, locks, now);
    case Pick(kind) => PickTimely(cfg, t, locks, kind);
    case Find(kind) => FindTimely(cfg, t, locks, kind);
    case Start(kind, now, clock) => StartTimely(cfg, t, locks, kind, now, clock);
    case Visit(kind, b, answer) =>
      if kind.Commits() {
        VisitCommitTimely(t, locks, kind, b, answer);
      } else {
        AnswerRollbackTimely(t, locks, kind, b, answer);
      }
    case Spare(kind, b) => SpareTimely(t, locks, kind, b);
    case Finish(kind) => FinishTimely(t, locks, kind);
  }
}
