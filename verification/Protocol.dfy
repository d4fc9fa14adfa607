/** Every interleaving of the coordinator's handlers and background loops over the in-memory store.

    `Commit` and `Rollback` look a transaction up before they take its lock, and decide with the copy of
    the branch set they got then; `timeoutCheck` scans before it takes the lock; a retry loop finds the
    sessions before it reads their branches; `BranchReport` takes no lock. So each of these is two steps,
    and whatever comes in between is a step of the machine. The other steps are: `Begin`; `BranchRegister`
    under its lock; the decision under the lock; the start of a pass; one branch of a pass, with whatever
    `branchCommit` or `branchRollback` returned for it; the end of a pass. */
module Protocol {
  import opened Apis
  import opened Storage

  /** Who runs a pass: the handler that decided, or one of the background loops. */
  datatype Kind = SyncCommit | RetryCommit | AsyncCommit | SyncRollback | RetryRollback {
    predicate Commits() { SyncCommit? || RetryCommit? || AsyncCommit? }
    predicate Retries() { RetryCommit? || AsyncCommit? || RetryRollback? }
  }

  datatype Job = Job(work: Work, running: bool)

  datatype Config = Config(maxCommitRetryTimeout: int, maxRollbackRetryTimeout: int, rollbackDeadSeconds: int,
                           rollbackRetryTimeoutUnlockEnable: bool)

  /** A transaction with what handlers know of it: the passes found or under way, the loops that have found
      its session, every copy of its branch set a handler has looked up, and whether timeoutCheck has found
      it. Then its history: the branches for which `branchCommit` returned PhaseTwoCommitted, for which
      `branchRollback` returned PhaseTwoRolledBack, and that were reported PhaseOneFailed; the branches that
      the deciding copy lacked; whether the decision was to commit; whether timeoutCheck has written over a
      decision to commit or to roll back. */
  datatype TxState = TxState(tx: Tx, jobs: map<Kind, Job>, picked: set<Kind>, copies: set<set<BranchSession>>, scanned: bool,
                             committed: set<BranchSession>, undone: set<BranchSession>, failed: set<BranchSession>,
                             missed: set<BranchSession>, committing: bool, late: bool)
  {
    predicate AllCommitted() { forall b :: b in tx.report ==> b in committed }
    predicate Settled(b: BranchSession) { b in undone || b in failed }
  }

  function Unknown(session: GlobalSession): TxState
  {
    TxState(Opened(session), map[], {}, {}, false, {}, {}, {}, {}, false, false)
  }

  datatype State = State(txs: map<string, TxState>, locks: LockTable)

  datatype LocalAction =
    | Register(b: BranchSession)
    | Report(b: BranchSession, status: BranchStatus)
    | LookUp
    | Commit(copy: set<BranchSession>)
    | Rollback(copy: set<BranchSession>)
    | Scan
    | Timeout(now: int)
    | Pick(kind: Kind)
    | Find(kind: Kind)
    | Start(kind: Kind, now: int, clock: int)
    | Visit(kind: Kind, b: BranchSession, answer: Answer)
    | Spare(kind: Kind, b: BranchSession)
    | Finish(kind: Kind)

  datatype Action = BeginTx(session: GlobalSession) | On(xid: string, act: LocalAction)

  const INIT: State := State(map[], map[])

  /** What the retry loops look for. */
  predicate Wanted(kind: Kind, s: GlobalStatus)
  {
    match kind
    case RetryCommit => s == CommitRetrying
    case AsyncCommit => s == AsyncCommitting
    case RetryRollback => s == RollingBack || s == RollbackRetrying || s == TimeoutRollingBack || s == TimeoutRollbackRetrying
    case _ => false
  }

  predicate Runs(t: TxState, kind: Kind) { kind in t.jobs && t.jobs[kind].running }

  predicate EnabledOn(t: TxState, a: LocalAction)
  {
    match a
    case Register(b) =>  // a new object, filled in from the transaction and the request
      b !in t.tx.report && b.XID == t.tx.session.XID && b.TransactionID == t.tx.Tid() && (b.Type == AT ==> b.AsyncCommit)
    case Report(b, _) => b in t.tx.report  // found at some time before
    case LookUp => true
    case Commit(copy) => copy in t.copies
    case Rollback(copy) => copy in t.copies
    case Scan => t.tx.live && t.tx.status == Begin
    case Timeout(_) => t.scanned
    case Pick(kind) =>  // one goroutine per loop: it is done with the transaction before it finds it again
      kind.Retries() && kind !in t.jobs && kind !in t.picked && t.tx.live && Wanted(kind, t.tx.status)
    case Find(kind) => kind in t.picked
    case Start(kind, _, _) => kind in t.jobs && !t.jobs[kind].running
    case Visit(kind, b, _) => Runs(t, kind) && b in t.jobs[kind].work.todo
    case Spare(kind, b) =>  // a rollback makes no call for a branch reported as failed
      !kind.Commits() && Runs(t, kind) && b in t.jobs[kind].work.todo && NeedsNoCall(t.tx, b)
    case Finish(kind) => Runs(t, kind) && t.jobs[kind].work.todo == {}
  }

  /** `NextID` gives a new transaction id, and the XID holds it. */
  predicate Enabled(s: State, a: Action)
  {
    match a
    case BeginTx(session) =>
      session.XID !in s.txs && forall x :: x in s.txs ==> s.txs[x].tx.Tid() != session.TransactionID
    case On(x, act) => x in s.txs && EnabledOn(s.txs[x], act)
  }

  function NewJob(copy: set<BranchSession>): Job { Job(Work(copy, copy), false) }

  function Drop(t: TxState, kind: Kind, tx: Tx): TxState { t.(tx := tx, jobs := t.jobs - {kind}) }

  /** The pass keeps its place, or ends with the value the function returned. */
  function After(t: TxState, kind: Kind, n: Next): (TxState, LockTable)
  {
    (if n.outcome.GoesOn? then t.(tx := n.tx, jobs := t.jobs[kind := Job(n.work, true)]) else Drop(t, kind, n.tx), n.locks)
  }

  /** The lookup's copy becomes the work of the pass; what it lacks is remembered. */
  function Decided(t: TxState, tx: Tx, kind: Kind, copy: set<BranchSession>): TxState
  {
    t.(tx := tx, jobs := t.jobs[kind := NewJob(copy)], missed := t.tx.branches - copy, committing := kind.Commits())
  }

  /** timeoutCheck would write over a decision that is not its own. */
  predicate TooLate(tx: Tx, now: int)
  {
    Elapsed(now, tx.session.BeginTime, tx.session.Timeout) && tx.status != Begin && FamilyOf(tx.status) != ToTimeout
  }

  /** From a decision or a lookup to the loop over the branches. */
  function Begun(cfg: Config, t: TxState, locks: LockTable, kind: Kind, now: int, clock: int): (TxState, LockTable)
    requires kind in t.jobs
  {
    var tx, job := t.tx, t.jobs[kind];
    var begin := tx.session.BeginTime;
    var ready := if HasSaga(job.work.branches) then Drop(t, kind, tx)
                 else t.(jobs := t.jobs[kind := job.(running := true)]);
    match kind
    case SyncCommit =>
      (if AllAsync(job.work.branches) then Drop(t, kind, tx.(status := AsyncCommitting)) else ready, locks)
    case SyncRollback => (ready, locks)
    case AsyncCommit => (if tx.status != AsyncCommitting then Drop(t, kind, tx) else ready, locks)
    case RetryCommit =>
      (if IsRetryTimeout(now, cfg.maxCommitRetryTimeout, begin) then Drop(t, kind, Removed(tx)) else ready, locks)
    case RetryRollback =>
      if tx.status == RollingBack && !Elapsed(clock, begin, cfg.rollbackDeadSeconds) then (Drop(t, kind, tx), locks)
      else if IsRetryTimeout(now, cfg.maxRollbackRetryTimeout, begin) then
        (Drop(t, kind, Removed(tx)),
         if cfg.rollbackRetryTimeoutUnlockEnable then Released(locks, ClaimsOf(job.work.branches)) else locks)
      else (ready, locks)
  }

  function Visited(t: TxState, locks: LockTable, kind: Kind, b: BranchSession, answer: Answer): (TxState, LockTable)
    requires kind in t.jobs
  {
    var w := t.jobs[kind].work;
    if kind.Commits() then
      After(t.(committed := if answer == Returned(PhaseTwoCommitted) then t.committed + {b} else t.committed),
            kind, VisitCommit(t.tx, locks, w, b, kind.Retries(), answer))
    else
      After(t.(undone := if answer == Returned(PhaseTwoRolledBack) then t.undone + {b} else t.undone),
            kind, AnswerRollback(t.tx, locks, w, b, kind.Retries(), answer))
  }

  function Ended(t: TxState, locks: LockTable, kind: Kind): (TxState, LockTable)
    requires kind in t.jobs
  {
    var w := t.jobs[kind].work;
    After(t, kind, if kind.Commits() then FinishCommit(t.tx, locks, w) else FinishRollback(t.tx, locks, w))
  }

  function ApplyOn(cfg: Config, t: TxState, locks: LockTable, a: LocalAction): (TxState, LockTable)
    requires EnabledOn(t, a)
  {
    match a
    case Register(b) =>
      var (_, tx, locks') := Storage.Register(t.tx, locks, b);
      (t.(tx := tx), locks')
    case Report(b, status) =>
      (t.(tx := Storage.Report(t.tx, b, status), failed := if status == PhaseOneFailed then t.failed + {b} else t.failed), locks)
    case LookUp => (t.(copies := t.copies + {t.tx.branches}), locks)
    case Commit(copy) =>
      var (go, tx, locks') := DecideCommit(t.tx, locks, copy);
      (if go then Decided(t, tx, SyncCommit, copy) else t.(tx := tx), locks')
    case Rollback(copy) =>
      var (go, tx) := DecideRollback(t.tx);
      (if go then Decided(t, tx, SyncRollback, copy) else t.(tx := tx), locks)
    case Scan => (t.(scanned := true), locks)
    case Timeout(now) => (t.(tx := DecideTimeout(t.tx, now), scanned := false, late := t.late || TooLate(t.tx, now)), locks)
    case Pick(kind) => (t.(picked := t.picked + {kind}), locks)
    case Find(kind) => (t.(jobs := t.jobs[kind := NewJob(t.tx.branches)], picked := t.picked - {kind}), locks)
    case Start(kind, now, clock) => Begun(cfg, t, locks, kind, now, clock)
    case Visit(kind, b, answer) => Visited(t, locks, kind, b, answer)
    case Spare(kind, b) => After(t, kind, Settle(t.tx, locks, t.jobs[kind].work, b))
    case Finish(kind) => Ended(t, locks, kind)
  }

  function Apply(cfg: Config, s: State, a: Action): State
    requires Enabled(s, a)
  {
    match a
    case BeginTx(session) => s.(txs := s.txs[session.XID := Unknown(session)])
    case On(x, act) =>
      var (t, locks) := ApplyOn(cfg, s.txs[x], s.locks, act);
      State(s.txs[x := t], locks)
  }

  predicate CommitPhase(s: GlobalStatus) { s == Committing || s == CommitRetrying || s == AsyncCommitting }
  predicate RollbackPhase(s: GlobalStatus) { s == RollingBack || s == RollbackRetrying || s == TimeoutRollingBack }

  datatype Family = Undecided | ToCommit | ToRollback | ToTimeout

  function FamilyOf(s: GlobalStatus): Family
  {
    if s.Committing? || s.CommitRetrying? || s.AsyncCommitting? || s.Committed? || s.CommitFailed? then ToCommit
    else if s.RollingBack? || s.RollbackRetrying? || s.RolledBack? || s.RollbackFailed? then ToRollback
    else if s.TimeoutRollingBack? || s.TimeoutRollbackRetrying? || s.TimeoutRolledBack? || s.TimeoutRollbackFailed? then ToTimeout
    else Undecided
  }
}
