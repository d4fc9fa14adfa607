/** What the in-memory store holds, as a value, and what each coordinator operation makes of one
    transaction and the lock table. Sessions and branches occur by identity: everything about them but
    what is recorded here is constant. The classes of Driver.dfy, Holder.dfy and Coordinator.dfy are
    proved to compute these functions; Protocol.dfy proves what every interleaving of them keeps. */
module Storage {
  import opened Apis
  import opened RowLocker

  /** A row key together with the transaction id that wants or holds it. */
  type Claim = (string, int)
  type LockTable = map<string, int>

  function Claims(rows: seq<RowLock>): set<Claim>
  {
    set r | r in rows :: (r.rowKey, r.transactionID)
  }

  function BranchRows(b: BranchSession): Rows
  {
    CollectBranchRowLocks(b.LockKey, Owner(b.ResourceID, b.XID, b.TransactionID, b.BranchID))
  }

  function BranchClaims(b: BranchSession): set<Claim>
  {
    Claims(BranchRows(b).Items())
  }

  lemma BranchClaimsOwned(b: BranchSession)
    ensures forall c :: c in BranchClaims(b) ==> c.1 == b.TransactionID
  {
    MeaningOwned(b.LockKey, Owner(b.ResourceID, b.XID, b.TransactionID, b.BranchID));
  }

  function ClaimsOf(bs: set<BranchSession>): set<Claim>
  {
    set b, c | b in bs && c in BranchClaims(b) :: c
  }

  /** Releasing deletes the claimed rows that their claimant really holds. */
  function Released(locks: LockTable, claims: set<Claim>): LockTable
  {
    map k | k in locks && (k, locks[k]) !in claims :: locks[k]
  }

  function Keys(claims: set<Claim>): set<string>
  {
    set c | c in claims :: c.0
  }

  /** No claimed row is held by another transaction. */
  predicate Free(locks: LockTable, claims: set<Claim>)
  {
    forall c :: c in claims && c.0 in locks ==> locks[c.0] == c.1
  }

  function Granted(locks: LockTable, claims: set<Claim>, tid: int): LockTable
  {
    locks + map k | k in Keys(claims) :: tid
  }

  /** `AcquireLock` on the rows of one transaction. A refusal also drops rows it held before. */
  function Acquire(locks: LockTable, claims: set<Claim>, tid: int): (bool, LockTable)
  {
    if Free(locks, claims) then (true, Granted(locks, claims, tid))
    else (false, Released(locks, claims))
  }

  predicate OwnsNoRow(locks: LockTable, tid: int)
  {
    forall k :: k in locks ==> locks[k] != tid
  }

  /** One transaction: its session, whether SessionMap still holds it, the branch set held there, and
      the status of every branch ever registered under it. */
  datatype Tx = Tx(session: GlobalSession, status: GlobalStatus, active: bool,
                   live: bool, branches: set<BranchSession>, report: map<BranchSession, BranchStatus>)
  {
    function Tid(): int { session.TransactionID }
  }

  function Members(order: seq<BranchSession>): set<BranchSession>
  {
    set b | b in order
  }

  /** An order in which a Go map may be walked. */
  predicate Enumerates(order: seq<BranchSession>, bs: set<BranchSession>)
  {
    && (forall b :: b in order ==> b in bs)
    && (forall b :: b in bs ==> b in order)
    && (forall i, j :: 0 <= i < j < |order| ==> order[i] != order[j])
  }

  datatype Store = Store(txs: map<string, Tx>, locks: LockTable)

  // Phase one -----------------------------------------------------------------------------------

  function Opened(session: GlobalSession): Tx
  {
    Tx(session, Begin, true, true, {}, map[])
  }

  datatype Verdict = Accepted | Refused(code: ExceptionCode)

  function Register(tx: Tx, locks: LockTable, b: BranchSession): (Verdict, Tx, LockTable)
  {
    if !tx.live then (Refused(GlobalTransactionNotExist), tx, locks)
    else if !tx.active then (Refused(GlobalTransactionNotActive), tx, locks)
    else if tx.status != Begin then (Refused(GlobalTransactionStatusInvalid), tx, locks)
    else
      var (ok, locks') := if b.Type == AT then Acquire(locks, BranchClaims(b), b.TransactionID) else (true, locks);
      if !ok then (Refused(LockKeyConflict), tx, locks')
      else (Accepted, tx.(branches := tx.branches + {b}, report := tx.report[b := Registered]), locks')
  }

  function Report(tx: Tx, b: BranchSession, status: BranchStatus): Tx
  {
    tx.(report := tx.report[b := status])
  }

  // The decision ----------------------------------------------------------------------------------

  /** The locked part of `Commit`, on a copy of the branch set that was made before: close the session, drop
      the rows of the copy, and only then look at the status. */
  function DecideCommit(tx: Tx, locks: LockTable, copy: set<BranchSession>): (bool, Tx, LockTable)
  {
    var go := tx.status == Begin;
    (go, tx.(active := false, status := if go then Committing else tx.status), Released(locks, ClaimsOf(copy)))
  }

  function DecideRollback(tx: Tx): (bool, Tx)
  {
    var go := tx.status == Begin;
    (go, tx.(active := false, status := if go then RollingBack else tx.status))
  }

  const UINT64: int := 0x1_0000_0000_0000_0000

  /** `CurrentTimeMillis() - uint64(begin) > uint64(limit)`, in uint64 arithmetic. */
  predicate Elapsed(now: int, begin: int, limit: int)
  {
    (now - begin) % UINT64 > limit % UINT64
  }

  function Int64(n: int): int { (n + UINT64 / 2) % UINT64 - UINT64 / 2 }

  /** A negative limit means: retry for ever. */
  predicate IsRetryTimeout(now: int, timeout: int, begin: int)
  {
    timeout >= 0 && Int64(now - begin) > timeout
  }

  /** The unsigned test, for times and limits as they come: besides a stretch longer than the limit, it takes
      any time before the beginning as elapsed; under a negative limit, only those less far back. */
  lemma ElapsedMeans(now: int, begin: int, limit: int)
    requires 0 <= now < UINT64 / 2 && 0 <= begin < UINT64 / 2 && -(UINT64 / 2) <= limit < UINT64 / 2
    ensures Elapsed(now, begin, limit) <==>
        if limit >= 0 then now < begin || now - begin > limit else now < begin < now - limit
  {
    assert now < begin ==> (now - begin) % UINT64 == now - begin + UINT64;
    assert limit < 0 ==> limit % UINT64 == limit + UINT64;
  }

  /** The signed test has neither effect. */
  lemma RetryTimeoutMeans(now: int, timeout: int, begin: int)
    requires 0 <= now < UINT64 / 2 && 0 <= begin < UINT64 / 2
    ensures IsRetryTimeout(now, timeout, begin) <==> 0 <= timeout < now - begin
  {
    assert Int64(now - begin) == now - begin;
  }

  /** What `timeoutCheck` writes to a session that it has found in `Begin` before. It does not look again
      at the status; only a session still open but no longer stored would stop it. */
  function DecideTimeout(tx: Tx, now: int): Tx
  {
    if Elapsed(now, tx.session.BeginTime, tx.session.Timeout)
    then if tx.active && !tx.live then tx.(active := false)
         else tx.(active := false, status := TimeoutRollingBack)
    else tx
  }

  // Phase two -------------------------------------------------------------------------------------

  /** What `branchCommit` or `branchRollback` gives back. */
  datatype Answer = Returned(status: BranchStatus) | CallError

  /** A pass in progress: the handler's own copy of the branch set, and the part of it not yet visited. */
  datatype Work = Work(branches: set<BranchSession>, todo: set<BranchSession>)

  /** Whether the pass goes on, or what it returned: done, or not done, possibly with an error. */
  datatype Outcome = GoesOn | Returns(done: bool, error: bool)

  datatype Next = Next(tx: Tx, locks: LockTable, work: Work, outcome: Outcome)

  predicate AllAsync(bs: set<BranchSession>) { forall b :: b in bs ==> b.AsyncCommit }
  predicate HasSaga(bs: set<BranchSession>) { exists b :: b in bs && b.Type == SAGA }

  predicate IsTimeoutStatus(s: GlobalStatus)
  {
    s == TimeoutRolledBack || s == TimeoutRollbackFailed || s == TimeoutRollingBack || s == TimeoutRollbackRetrying
  }

  function Removed(tx: Tx): Tx { tx.(live := false, branches := {}) }

  /** The branch is over: drop its rows, forget it locally, and take it out of the store. */
  function Settle(tx: Tx, locks: LockTable, w: Work, b: BranchSession): Next
  {
    Next(tx.(branches := tx.branches - {b}), Released(locks, BranchClaims(b)), Work(w.branches - {b}, w.todo - {b}),
         if tx.live then GoesOn else Returns(false, true))
  }

  /** Write a final status, drop the rows of the handler's copy and remove the transaction. The removal
      reports an error when the copy still has branches, and the write does when the session is gone. */
  function Conclude(tx: Tx, locks: LockTable, w: Work, status: GlobalStatus, done: bool): Next
  {
    var tx' := tx.(status := status);
    if !tx.live then Next(tx', locks, w, Returns(false, true))
    else Next(Removed(tx'), Released(locks, ClaimsOf(w.branches)), w,
              if w.branches == {} then Returns(done, false) else Returns(false, true))
  }

  /** Give up on this pass; the first pass leaves the transaction to the retry loop. */
  function GiveUp(tx: Tx, locks: LockTable, w: Work, retrying: bool, status: GlobalStatus, error: bool): Next
  {
    if retrying then Next(tx, locks, w, Returns(false, error))
    else Next(tx.(status := status), locks, w, Returns(false, error || !tx.live))
  }

  function Skip(tx: Tx, locks: LockTable, w: Work, b: BranchSession): Next
  {
    Next(tx, locks, w.(todo := w.todo - {b}), GoesOn)
  }

  function VisitCommit(tx: Tx, locks: LockTable, w: Work, b: BranchSession, retrying: bool, answer: Answer): Next
  {
    if answer.CallError? then GiveUp(tx, locks, w, retrying, CommitRetrying, true)
    else if answer.status == PhaseTwoCommitted then Settle(tx, locks, w, b)
    else if answer.status == PhaseTwoCommitFailedCanNotRetry then
      if AllAsync(w.branches) then Skip(tx, locks, w, b) else Conclude(tx, locks, w, CommitFailed, false)
    else if retrying && AllAsync(w.branches) then Skip(tx, locks, w, b)
    else GiveUp(tx, locks, w, retrying, CommitRetrying, false)
  }

  function FinishCommit(tx: Tx, locks: LockTable, w: Work): Next
  {
    if tx.live && tx.branches != {} then Next(tx, locks, w, Returns(false, false))
    else Conclude(tx, locks, w, Committed, true)
  }

  /** No call is made for a branch whose phase one is reported as failed. */
  predicate NeedsNoCall(tx: Tx, b: BranchSession)
  {
    b in tx.report && tx.report[b] == PhaseOneFailed
  }

  function VisitRollback(tx: Tx, locks: LockTable, w: Work, b: BranchSession, retrying: bool, answer: Answer): Next
  {
    if NeedsNoCall(tx, b) then Settle(tx, locks, w, b) else AnswerRollback(tx, locks, w, b, retrying, answer)
  }

  /** What the answer of a call does. */
  function AnswerRollback(tx: Tx, locks: LockTable, w: Work, b: BranchSession, retrying: bool, answer: Answer): Next
  {
    var timedOut := IsTimeoutStatus(tx.status);
    var retryStatus := if timedOut then TimeoutRollbackRetrying else RollbackRetrying;
    if answer.CallError? then GiveUp(tx, locks, w, retrying, retryStatus, true)
    else if answer.status == PhaseTwoRolledBack then Settle(tx, locks, w, b)
    else if answer.status == PhaseTwoRollbackFailedCanNotRetry then
      Conclude(tx, locks, w, if timedOut then TimeoutRollbackFailed else RollbackFailed, false)
    else GiveUp(tx, locks, w, retrying, retryStatus, false)
  }

  function FinishRollback(tx: Tx, locks: LockTable, w: Work): Next
  {
    if tx.live && tx.branches != {} then Next(tx, locks, w, Returns(false, false))
    else Conclude(tx, locks, w, if IsTimeoutStatus(tx.status) then TimeoutRolledBack else RolledBack, true)
  }
}
