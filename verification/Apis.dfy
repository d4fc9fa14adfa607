/** pkg/apis: the enumerations and the two session objects. The coordinator shares sessions by pointer,
    so they are classes; only the fields the coordinator assigns after construction are variables. */
module Apis {
  datatype GlobalStatus =
    | UnknownGlobalStatus | Begin | Committing | CommitRetrying | RollingBack | RollbackRetrying
    | TimeoutRollingBack | TimeoutRollbackRetrying | AsyncCommitting | Committed | CommitFailed
    | RolledBack | RollbackFailed | TimeoutRolledBack | TimeoutRollbackFailed | Finished

  // The enumerations below arrive from clients, and proto3 enumerations are open.
  datatype BranchType = AT | TCC | SAGA | XA | OtherType(code: int)

  datatype BranchStatus =
    | UnknownBranchStatus | Registered | PhaseOneDone | PhaseOneFailed | PhaseOneTimeout
    | PhaseTwoCommitted | PhaseTwoCommitFailedRetryable | PhaseTwoCommitFailedCanNotRetry
    | PhaseTwoRolledBack | PhaseTwoRollbackFailedRetryable | PhaseTwoRollbackFailedCanNotRetry
    | OtherStatus(code: int)

  datatype ExceptionCode =
    | UnknownErr | BeginFailed | LockKeyConflict | BranchRegisterFailed | BranchReportFailed
    | BranchTransactionNotExist | GlobalTransactionNotExist | GlobalTransactionNotActive
    | GlobalTransactionStatusInvalid | FailedLockGlobalTransaction

  class GlobalSession {
    const Addressing: string
    const XID: string
    const TransactionID: int
    const TransactionName: string
    const Timeout: int
    const BeginTime: int
    var Status: GlobalStatus
    var Active: bool

    /** The session as `Begin` makes it: `GlobalTransaction.Begin` sets the last three fields. */
    constructor (addressing: string, xid: string, transactionID: int, name: string, timeout: int, now: int)
      ensures Addressing == addressing && XID == xid && TransactionID == transactionID
      ensures TransactionName == name && Timeout == timeout && BeginTime == now
      ensures Status == Begin && Active
    {
      Addressing, XID, TransactionID := addressing, xid, transactionID;
      TransactionName, Timeout, BeginTime := name, timeout, now;
      Status, Active := Begin, true;
    }
  }

  class BranchSession {
    const Addressing: string
    const XID: string
    const BranchID: int
    const TransactionID: int
    const ResourceID: string
    const LockKey: string
    const Type: BranchType
    const AsyncCommit: bool
    var Status: BranchStatus

    constructor (addressing: string, xid: string, branchID: int, transactionID: int, resourceID: string,
                 lockKey: string, branchType: BranchType, asyncCommit: bool)
      ensures Addressing == addressing && XID == xid && BranchID == branchID
      ensures TransactionID == transactionID && ResourceID == resourceID && LockKey == lockKey
      ensures Type == branchType && AsyncCommit == asyncCommit && Status == Registered
    {
      Addressing, XID, BranchID, TransactionID := addressing, xid, branchID, transactionID;
      ResourceID, LockKey, Type, AsyncCommit := resourceID, lockKey, branchType, asyncCommit;
      Status := Registered;
    }
  }
}
