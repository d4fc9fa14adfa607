# seata-golang: transaction coordinator, row locks, message exchange, codec and identifiers

Models of the transaction coordinator of seata-golang and of what it rests on, with proofs of what they promise.

**Coordinator.** A global transaction is begun, takes branches, and is decided: commit, rollback, or rollback by
timeout. A synchronous pass and three background loops then work through its branches. Three tables change together:
sessions, branch sets and row locks. `Commit` and `Rollback` look a transaction up before they take its lock, and
decide with the copy of the branch set they got then; `timeoutCheck` scans before it takes the lock; `BranchReport`
takes none. What comes in between is part of the model.

- `Apis.dfy`: the enumerations and the two session objects, shared by pointer.
- `Storage.dfy`: what one operation makes of one transaction and the lock table, as functions of values. Sessions
  and branches occur by identity; all that changes about them is recorded beside them.
- `Protocol.dfy`: a state machine whose steps are those functions, with the copies looked up, the scans made, the
  passes found or under way, and a history of registered branches and of answers. Lookups, decisions and passes of
  different handlers interleave, passes branch by branch.
- `Invariant.dfy`, `RowCover.dfy`, `Account.dfy`: what every step keeps of one transaction, of its rows, and of where
  its branches went.
- `Runs.dfy`: what holds in every state of every run. `Outcomes.dfy`: what a final status says of the branches.
  `Witness.dfy`: runs that show what the conditions are for.
- `Passes.dfy`: one pass without interference, over a snapshot of the branch set in any order: measure and outcome.
  `PassResults.dfy`: exactly what a first or retried pass leaves and returns, told by its order and the answers.
- `Handlers.dfy`: whole handlers as functions, each shown to be a run of the machine, and the meaning of the answers.
  `Answers.dfy`: what each handler answers and leaves, case by case, without those functions.
- `Driver.dfy`, `Holder.dfy`, `LockManager.dfy`, `Coordinator.dfy`: the classes, with their maps, sets, loops and
  shared objects, proved to compute those functions. The coordinator carries its past as a run of the machine,
  which every handler extends, so all the theorems about runs hold of it.

**Row locks.** `Text.dfy` (the string and number functions of Go's library that are used, on all inputs), `Xid.dfy`,
`RowLocker.dfy` (lock keys, with the printer that the parser undoes, and row keys), `Mysql.dfy` (dedupe, check and
insert over a table with a unique key), `Locking.dfy` (both algorithms meet one specification; row keys are as good
as the rows they stand for), `RowSteps.dfy` (in-memory lock calls cut at every operation on the map).

**Message exchange.** `Exchange.dfy`: callers, streams, timers and resource managers, interleaved step by step.

**Codec.** `Varint.dfy`, `Skip.dfy`, `Message.dfy`, `Parsing.dfy` (which inputs are accepted): in-place backward
marshalling, forward unmarshalling and unknown fields for `GlobalSession` and `BranchSession`, after "Base 128 Varints"
and "Message Structure" of the Protocol Buffers Encoding specification.

**Identifiers.** `IdWorker.dfy`.

`dafny verify dfyconfig.toml` checks everything.

## Where the code promises less than one might think

Each of these is a lemma. "If and only if" is proved in both directions.

- A branch registered between the lookup of `Commit` and its decision is committed around: the decision leaves no row
  behind if and only if the looked-up copy claims every row held (`Runs.DecisionRows`). `Witness.BranchMissed` is a run
  in which such a branch stays stored in `Committing`, rows and all.
- `Committing` is in no retry loop's statuses; of the decided statuses it is the only such one (`Runs.SomebodyWants`).
  A `Commit` leaves a transaction there if and only if its branches were not all asynchronous, and one was SAGA, or the
  pass went through although a branch was given up or missed (`Handlers.Stranded`).
- `Commit` answers `Committed` also when nothing is carried out yet (`Handlers.AnsweredBeforeCarriedOut`); it returns
  with the transaction carried out if and only if the branches were not all asynchronous, none was SAGA, every one was
  answered PhaseTwoCommitted, and the copy had them all (`Handlers.CarriedOut`).
- `Commit` of an open transaction answers with a failure if and only if its branches were not all asynchronous, and one
  was SAGA, or the call that stopped the pass failed, or the branch that stopped it cannot be committed any more
  (`Answers.CommitOfOpen`). `Rollback` gives an error of the call under the like condition, without the exception for
  asynchronous branches (`Answers.RollbackOfOpen`).
- A rollback pass that gives up for good releases the rows of all branches and removes the session, and returns an
  error nevertheless: the removal finds branches left in the handler's copy (`PassResults.RollbackPassIs`).
- An asynchronous commit can fail if and only if a stored branch is not asynchronous and none is SAGA
  (`Passes.AsyncCanFail`); if the decision missed no branch, it cannot (`Runs.AsyncStaysAsync`).
- A decision stays in its family if and only if `timeoutCheck` does not write over it (`Runs.DecisionKept`);
  `Runs.TimeoutWrite` says which writes do, and `Witness.DecisionTurned` is a run with one.
- A session can be removed as `TimeoutRolledBack` although `branchCommit` committed a branch, and as `Committed`
  although `branchRollback` rolled one back (runs in `Witness.CommittedThenRolledBack`,
  `Witness.RolledBackThenCommitted`). Every branch was taken out of the store by one answer: it was not committed while
  stored if and only if a rollback took it out, and an outcome against one of its branches takes a write of
  `timeoutCheck` over the decision (`Outcomes.Outcome`). A branch that was rolled back may still be answered
  PhaseTwoCommitted later (`Witness.AnsweredBothWays`).
- A session that was removed as `RollbackFailed` can be set to `RolledBack` afterwards by a retry that had found it
  before (`Witness.RemovedThenRolledBack`). A removed session gets another final status only from a pass that was
  found or under way when it was removed (`Outcomes.FinalAfterRemoval`). While `timeoutCheck` is never too late,
  `RolledBack` read from it means that every branch was rolled back before the removal if and only if none was stored
  then (`Outcomes.RolledBackRead`). `Rollback` without interference answers `RolledBack` to its own decision if and
  only if every branch is undone (`Handlers.UndoneNow`).
- A refused in-memory `AcquireLock` also drops rows that the requester already held. The two drivers agree after a
  request if and only if it was granted or the requester held none of the rows (`Locking.TwoAlgorithmsOneSpecification`).
- In-memory lock calls are not atomic. As long as no transaction has two of them under way, each leaves its own
  transaction with the rows it would have after one step with the same answer, and no other transaction's rows change
  (`RowSteps.CallAsOneStep`, `RowSteps.OwnRowsOnly`); a refusal has met a row of another on its way, and a grant has
  found all its rows free or its own (`RowSteps.AnswersFound`). But two requests can refuse each other with nobody holding a
  row (`RowSteps.BothRefused`), and two releases of one transaction can take a row from another
  (`RowSteps.RowTaken`); a synchronous and a retried rollback pass make such calls.
- Removing a timed-out rollback frees its rows if and only if `rollbackRetryTimeoutUnlockEnable` is set or it held
  none (`Runs.TimedOutRollbackRows`).
- Some rows of two tables, with primary keys that are not empty, share a row key if and only if `resource^^^table^^^` of one is a prefix of that of the other
  (`RowLocker.SomeRowsCollide`); without `^` in resources and tables none do, and locking row keys is locking the rows
  (`RowLocker.RowKeyInjective`, `Locking.RowKeysAreFaithful`).
- The unsigned comparison of `isGlobalSessionTimeout` and `IsRollingBackDead` takes a clock behind the session's
  beginning for a time that is up; under a negative limit hardly any other (`Storage.ElapsedMeans`).
- `NextID` repeats an id if and only if a multiple of 2^53 calls lies between (`IdWorker.Repeats`).
- A stream that has stored a response goes on if its waiter still waits, and otherwise stays there for ever: the
  `Done` channel has no buffer (`Exchange.BlockedForEver`, with a run in `Exchange.StreamCanBlock`).
- A failed `Unmarshal` leaves the whole fields in front of the failure, and may leave one number with the groups of a
  varint that breaks off (`Message.FailureLeaves`, `Message.LeavesOne`).
- With `skipCheckLock`, a request is granted if and only if no key is asked for twice or stored already, by whomever
  (`Mysql.SkippedCheck`).
- A transaction id that is no number becomes 0 in `GetTransactionID`, and one out of range the nearest bound
  (`Text.ParseBad`, `Text.ParseDigits`).
- The MySQL driver's `IsLockable` and `AcquireLock` are out of range without rows (`Mysql.MysqlDriver.IsLockable`,
  `Mysql.MysqlDriver.AcquireLock`).

## Model

| member | source | states |
|---|---|---|
| Runs.NoOrphanLocks | pkg/tc/server/transaction_coordinator.go:709-792 | In every reachable state, with timed-out rollbacks unlocking, every held row is in the lock key of an AT branch of the transaction that owns it: a stored branch if the transaction is stored; if it is removed or was decided to commit, a branch registered between the decision and the lookup before it |
| Runs.OwnsNothing | pkg/tc/server/transaction_coordinator.go:154-180 | If its decision missed no branch, a transaction owns no row once it is decided to commit, and none once it is removed if timed-out rollbacks unlock |
| Runs.DecisionRows | pkg/tc/server/transaction_coordinator.go:147-180 | The decision to commit leaves no row if and only if the copy looked up before claims every row held; it does if nothing was registered in between |
| Runs.RowsShrink | pkg/tc/server/transaction_coordinator.go:709-792 | A decided transaction takes no row any more, neither by its own steps nor by those of others |
| Runs.OrphansAreRemoved | pkg/tc/server/transaction_coordinator.go:918-948 | Whatever the configuration, a row without a stored branch to cover it belongs to a removed transaction |
| Runs.TimedOutRollbackRows | pkg/tc/server/transaction_coordinator.go:932-941 | Removing a timed-out rollback leaves no row of it behind if and only if unlocking is enabled or it held none |
| Runs.OneDecision | pkg/tc/server/transaction_coordinator.go:154-205 | Once a session leaves Begin it is inactive for ever, takes no branch, loses branches only, and stays removed once it is; its status stays in one of the commit, rollback and timeout families unless timeoutCheck writes over the decision |
| Runs.DecisionKept | pkg/tc/server/transaction_coordinator.go:887-916 | All statuses since the decision are of one family if and only if timeoutCheck has not written over a decision that was not its own |
| Runs.LateStep | pkg/tc/server/transaction_coordinator.go:887-916 | If it has, one step of the run did: a timeoutCheck whose scan was before the decision and whose write came after |
| Runs.TimeoutWrite | pkg/tc/server/transaction_coordinator.go:887-916 | The unconditional write of timeoutCheck changes the family of a decision if and only if the time is up and another decision was taken |
| Runs.StoredStatuses | pkg/tc/server/transaction_coordinator.go:443-557 | A session is active exactly in Begin; a stored one has one of eight statuses; TimeoutRollbackRetrying is never reached unless timeoutCheck was too late |
| Runs.SomebodyWants | pkg/tc/server/transaction_coordinator.go:843-1005 | In every run, a stored decided session is in a status that some retry loop looks for if and only if it is not Committing |
| Runs.AsyncStaysAsync | pkg/tc/server/transaction_coordinator.go:204-213 | If the stored branches are asynchronous, or the decision missed none, AsyncCommitting goes nowhere but to Committed, and the session is stored exactly until then |
| Runs.RunInv | pkg/tc/server/transaction_coordinator.go:146-948 | The invariant linking sessions, branch sets, copies, passes under way, history and rows holds in every state of every run |
| Runs.StepInv | pkg/tc/server/transaction_coordinator.go:146-948 | Every step of every handler and loop keeps the invariant; none undoes a removal, and only a late timeout write undoes a decision or an outcome |
| Invariant.StepBase | pkg/tc/server/transaction_coordinator.go:146-948 | Every step, late timeout writes included, keeps: closed exactly when decided, nothing stored once removed, and every pass has all stored branches in its copy but those that the decision missed |
| Invariant.StepTimely | pkg/tc/server/transaction_coordinator.go:146-948 | Every step but a late timeout write keeps status, passes under way and history in agreement |
| Invariant.OnePass | pkg/tc/server/transaction_coordinator.go:843-885 | A transaction that commits has one pass at most, found or under way |
| Invariant.VisitCommitTimely | pkg/tc/server/transaction_coordinator.go:242-303 | One branch of a commit pass, whatever the answer, keeps it: a branch leaves the store only with PhaseTwoCommitted |
| Invariant.AnswerRollbackTimely | pkg/tc/server/transaction_coordinator.go:455-527 | One branch of a rollback pass keeps it, while another rollback pass for the same transaction is under way |
| Invariant.FinishTimely | pkg/tc/server/transaction_coordinator.go:304-327 | The end of a pass keeps it, and writes nothing to a stored session that has a stored branch |
| Invariant.StartTimely | pkg/tc/server/transaction_coordinator.go:918-1005 | So does the way from a decision or a lookup to the loop over the branches, removal by retry timeout included |
| Account.StepAccount | pkg/tc/server/transaction_coordinator.go:242-566 | Every step, late timeout writes included, keeps: a branch that a stored session has lost was answered PhaseTwoCommitted or PhaseTwoRolledBack or reported PhaseOneFailed; and a stored session has one of eight statuses |
| Account.Leaves | pkg/tc/server/transaction_coordinator.go:242-528 | A branch leaves a stored session only by PhaseTwoCommitted in a commit pass, PhaseTwoRolledBack in a rollback pass, or as reported failed |
| Outcomes.OneFate | pkg/tc/server/transaction_coordinator.go:242-528 | In every state of every run, a branch ever registered under a stored session is still stored or was taken out by one answer, which committed it or rolled it back, never both |
| Outcomes.Outcome | pkg/tc/server/transaction_coordinator.go:242-566 | In every run, late timeout writes included: when a session is removed as Committed, RolledBack or TimeoutRolledBack, each branch ever registered was not committed if and only if a rollback took it out of the store, with the answers that say so; an outcome against a branch takes a write of timeoutCheck over the decision |
| Outcomes.LateMeans | pkg/tc/server/transaction_coordinator.go:887-916 | timeoutCheck was too late if and only if the run has a write of it over a decision to commit or to roll back |
| Outcomes.CommittedMeansAllCommitted | pkg/tc/server/transaction_coordinator.go:242-316 | Unless timeoutCheck wrote over the decision, Committed is set only after branchCommit returned PhaseTwoCommitted for every branch ever registered, whatever copies the handlers had |
| Outcomes.RolledBackMeansAllUndone | pkg/tc/server/transaction_coordinator.go:455-555 | Unless timeoutCheck wrote over the decision, a session is removed as RolledBack or TimeoutRolledBack only after every branch ever registered was reported PhaseOneFailed or branchRollback returned PhaseTwoRolledBack for it |
| Outcomes.HistoryMeans | pkg/tc/server/transaction_coordinator.go:242-316 | The history sets used in the invariants record exactly such answers and reports of the run |
| Outcomes.EverRegistered | pkg/tc/server/transaction_coordinator.go:728-746 | No branch is registered after the decision |
| Outcomes.FinalAfterRemoval | pkg/tc/server/transaction_coordinator.go:304-321 | A removed session gets another final status only from a pass found or under way at its removal, which finishes or meets an answer that cannot be retried; and one that finishes writes its own |
| Outcomes.GoneWithNone | pkg/tc/server/transaction_coordinator.go:304-327 | All branches of a removed session were taken out by answers if and only if none was stored when it was removed |
| Outcomes.RolledBackRead | pkg/tc/server/transaction_coordinator.go:433-441 | Unless timeoutCheck was too late, RolledBack read from a session means that every branch was rolled back or reported failed before its removal if and only if none was stored then |
| RowCover.RegisterLocks | pkg/tc/server/transaction_coordinator.go:753-778 | Registering a branch, granted or refused, keeps every row of the transaction covered by its stored branches |
| RowCover.CommitLocks | pkg/tc/server/transaction_coordinator.go:154-180 | A decision to commit, with any copy, leaves rows at most of branches that the copy lacks |
| RowCover.StepLocks | pkg/tc/server/transaction_coordinator.go:146-948 | No step changes a row of another transaction, and every step keeps its own rows covered |
| Witness.BranchMissed | pkg/tc/server/transaction_coordinator.go:147-169 | A run: an AT branch registered between lookup and decision; the commit ends with the session stored in Committing, that branch stored and its rows held |
| Witness.DecisionTurned | pkg/tc/server/transaction_coordinator.go:887-916 | A run: scanned, then decided to commit, then written TimeoutRollingBack |
| Witness.RemovedThenRolledBack | pkg/tc/server/transaction_coordinator.go:530-555 | A run: a session removed as RollbackFailed is set to RolledBack by a retry that had found it before, with a branch that was never undone |
| Witness.CommittedThenRolledBack | pkg/tc/server/transaction_coordinator.go:887-916 | A run: scanned, committed, timed out, the branch committed, and the session removed as TimeoutRolledBack |
| Witness.RolledBackThenCommitted | pkg/tc/server/transaction_coordinator.go:887-916 | A run: a retried commit found, timed out, the branch rolled back, and the session removed as Committed |
| Witness.AnsweredBothWays | pkg/tc/server/transaction_coordinator.go:887-916 | A run: a branch is rolled back and then committed by a pass that still had it to visit |
| Passes.CommitPassShrinks | pkg/tc/server/transaction_coordinator.go:242-316 | Unless it removes the transaction, a commit pass takes from the stored branch set exactly the branches it got PhaseTwoCommitted for |
| Passes.RollbackPassShrinks | pkg/tc/server/transaction_coordinator.go:455-544 | A rollback pass takes out at least those it got PhaseTwoRolledBack for, and adds none |
| Passes.PositiveAnswerShrinks | pkg/tc/server/transaction_coordinator.go:242-327 | A pass with one positive answer strictly shrinks the stored branch set or removes the transaction |
| Passes.AllCommittedRemoves | pkg/tc/server/transaction_coordinator.go:304-327 | A commit pass with only positive answers ends done, with the transaction removed as Committed and owning no row |
| Passes.AllRolledBackRemoves | pkg/tc/server/transaction_coordinator.go:530-566 | A rollback pass with only positive answers ends done, with the transaction removed under its own final status and owning no row |
| Passes.AsyncPassIgnoresOrder | pkg/tc/server/transaction_coordinator.go:242-316 | The outcome of an asynchronous pass does not depend on the map's order: the branches left are those not answered PhaseTwoCommitted, and the session is removed if and only if there is none |
| Passes.FirstPass | pkg/tc/server/transaction_coordinator.go:242-327 | What the first pass of a commit leaves, told without the loop: whether it goes through, which branches stay, and when the transaction is removed as Committed |
| Passes.FirstRollback | pkg/tc/server/transaction_coordinator.go:455-566 | The first pass of a rollback rolls back if and only if every branch it has to visit is reported failed or answered PhaseTwoRolledBack, and no other is stored |
| Passes.AsyncCanFail | pkg/tc/server/transaction_coordinator.go:242-316 | Some order and answers end an asynchronous commit as CommitFailed if and only if a stored branch is not asynchronous and none is SAGA |
| PassResults.RollbackPassIs | pkg/tc/server/transaction_coordinator.go:443-567 | First or retried, with any copy of the branch set: a rollback pass goes on to the first branch that is neither reported failed nor answered PhaseTwoRolledBack; what it leaves of session, status, branches and rows there, or at the end, and whether it returns done or an error |
| PassResults.CommitPassIs | pkg/tc/server/transaction_coordinator.go:230-328 | The same of a commit pass, which goes past a PhaseTwoCommitted, and past a refusal while the branches left are all asynchronous, unless it is a first one that may be retried |
| PassResults.RollbackOfGone | pkg/tc/server/transaction_coordinator.go:455-566 | A rollback pass whose session was removed meanwhile stops at its first branch: an undone one loses its rows, and a final status is written all the same |
| Handlers.CommitLoopIsRun | pkg/tc/server/transaction_coordinator.go:242-327 | A commit pass without interference is a sequence of enabled steps of the machine with the same result |
| Handlers.RollbackLoopIsRun | pkg/tc/server/transaction_coordinator.go:455-566 | So is a rollback pass |
| Handlers.LookUpExtends | pkg/tc/server/transaction_coordinator.go:147-153 | So does a lookup, and its copy stays known |
| Handlers.CommitExtends | pkg/tc/server/transaction_coordinator.go:146-228 | Commit with any copy looked up before, uninterrupted from its decision on, extends any run that led to the store before it to one that leads to the store after it |
| Handlers.RollbackExtends | pkg/tc/server/transaction_coordinator.go:382-441 | So does Rollback |
| Handlers.RetryExtends | pkg/tc/server/transaction_coordinator.go:918-1005 | So does each retry of a found transaction, for all three loops |
| Handlers.RegisterExtends | pkg/tc/server/transaction_coordinator.go:709-792 | So does BranchRegister, granted or refused |
| Handlers.ReportExtends | pkg/tc/server/transaction_coordinator.go:801-833 | So does BranchReport |
| Handlers.TimeoutExtends | pkg/tc/server/transaction_coordinator.go:887-916 | So does timeoutCheck on one session |
| Handlers.BeginExtends | pkg/tc/server/transaction_coordinator.go:94-126 | So does Begin; its XID is new because the transaction id is |
| Handlers.NewXID | pkg/util/common/xid.go:9-11 | A transaction id no transaction has makes an XID no transaction has |
| Handlers.CommitAnswers | pkg/tc/server/transaction_coordinator.go:146-228 | Commit's answer is of the family of the session's decision, and the session is closed; which one is in Answers.CommitOfOpen and Answers.CommitOfDecided |
| Handlers.AnsweredBeforeCarriedOut | pkg/tc/server/transaction_coordinator.go:204-213 | An asynchronous commit is answered Committed and leaves the transaction stored in AsyncCommitting with all its branches |
| Handlers.CarriedOut | pkg/tc/server/transaction_coordinator.go:204-228 | The transaction is removed as Committed when Commit returns if and only if the copy is not all asynchronous, has no SAGA, is answered PhaseTwoCommitted throughout, and has every stored branch |
| Handlers.Stranded | pkg/tc/server/transaction_coordinator.go:204-228 | It is left stored in Committing if and only if the copy is not all asynchronous, and has a SAGA branch, or the pass goes through with a branch given up or missed |
| Handlers.RollbackAnswers | pkg/tc/server/transaction_coordinator.go:382-441 | Rollback answers with the session's status; RolledBack means that the session is gone |
| Handlers.UndoneNow | pkg/tc/server/transaction_coordinator.go:390-441 | From Begin, Rollback answers RolledBack if and only if the copy has no SAGA branch, has every stored branch, and each is reported failed or answered PhaseTwoRolledBack |
| Answers.CommitOfOpen | pkg/tc/server/transaction_coordinator.go:146-228 | From Begin, Commit answers Failed if and only if the copy is not all asynchronous and has a SAGA branch, or the call that stops the pass fails, or the branch that stops it can not be retried; with which status; else Committed; and what the pass leaves |
| Answers.CommitOfDecided | pkg/tc/server/transaction_coordinator.go:146-228 | Commit of a decided transaction answers its own status, Committed for AsyncCommitting, and drops the rows of the copy |
| Answers.RollbackOfOpen | pkg/tc/server/transaction_coordinator.go:382-441 | From Begin, Rollback gives an error if and only if a SAGA branch, a failed call or a branch that can not be retried stops the pass; else RolledBack, RollbackRetrying or RollingBack, each exactly when; and what the pass leaves |
| Answers.RollbackOfDecided | pkg/tc/server/transaction_coordinator.go:382-441 | Rollback of a decided transaction answers its own status and closes it |
| Answers.RetriedRollbackIs | pkg/tc/server/transaction_coordinator.go:918-948 | One transaction of the rollback loop: left alone if it is RollingBack and not dead, removed if it is too old, and else one more pass, whose result is told by order and answers |
| Answers.RetriedCommitIs | pkg/tc/server/transaction_coordinator.go:950-1005 | One transaction of the commit or the asynchronous loop: removed with its rows kept if the former finds it too old, and else one more pass, whose result is told by order and answers |
| Answers.RetryEach | pkg/tc/server/transaction_coordinator.go:918-1005 | A round over distinct transactions leaves each as its own retry on the store before the round does, and no other changes |
| Answers.PassStarts | pkg/tc/server/transaction_coordinator.go:918-1005 | The exact condition under which a pass that was found or decided starts its loop; if it does, transaction and rows are unchanged |
| Answers.Registration | pkg/tc/server/transaction_coordinator.go:709-799 | An open transaction refuses an AT branch if and only if a row of its lock key is held by another; refused, no branch is stored and only own rows of the lock key go; accepted, the branch is stored as Registered, its rows are all held by its transaction, and no other row changes; the three other refusals by their states |
| Answers.ReportIs | pkg/tc/server/transaction_coordinator.go:801-833 | A report records the status of that branch and of no other |
| Answers.ReportedFailed | pkg/tc/server/transaction_coordinator.go:455-466 | After a report of PhaseOneFailed a rollback settles the branch whatever its resource manager would answer; after any other, exactly if it answers PhaseTwoRolledBack |
| Answers.TimedOutIs | pkg/tc/server/transaction_coordinator.go:887-916 | A stored session found in Begin is closed and set to TimeoutRollingBack if and only if the clock is behind its beginning or further ahead of it than its limit; else it is unchanged |
| Answers.TimeoutEach | pkg/tc/server/transaction_coordinator.go:887-916 | A round leaves each session found as its own reading of the clock says, and nothing else changes |
| Coordinator.TransactionCoordinator.Begin | pkg/tc/server/transaction_coordinator.go:94-126 | A new open session under a new XID, and nothing else; the past is extended |
| Coordinator.TransactionCoordinator.GetStatus | pkg/tc/server/transaction_coordinator.go:128-140 | The status of a stored session, Finished for any other |
| Coordinator.TransactionCoordinator.Commit | pkg/tc/server/transaction_coordinator.go:146-228 | Without interference: answer, session, branch set and rows are those of HandleCommit for some order of the branch map; nothing else changes; the past is extended; its exact answer is in Answers.CommitOfOpen |
| Coordinator.TransactionCoordinator.LookUpTransaction | pkg/tc/server/transaction_coordinator.go:147-153 | The lookup alone: the stored session with a copy of its branch set, which the past then knows |
| Coordinator.TransactionCoordinator.StillLookedUp | pkg/tc/server/transaction_coordinator.go:147-155 | A copy looked up before any other calls can be passed to CommitFound and RollbackFound after them |
| Coordinator.TransactionCoordinator.CommitFound | pkg/tc/server/transaction_coordinator.go:154-228 | Commit from its lookup on, after any other calls in between: as HandleCommit says for the copy it has, however old |
| Coordinator.TransactionCoordinator.Rollback | pkg/tc/server/transaction_coordinator.go:382-441 | Without interference: as HandleRollback says for some order of the branch map; nothing else changes; the past is extended |
| Coordinator.TransactionCoordinator.RollbackFound | pkg/tc/server/transaction_coordinator.go:390-441 | The same from its lookup on |
| Coordinator.TransactionCoordinator.DecideToCommit | pkg/tc/server/transaction_coordinator.go:154-180 | Close the session, drop the rows of its branches, and take the decision only if the status is Begin |
| Coordinator.TransactionCoordinator.DecideToRollback | pkg/tc/server/transaction_coordinator.go:390-413 | Close the session and take the decision only if the status is Begin |
| Coordinator.TransactionCoordinator.DoGlobalCommit | pkg/tc/server/transaction_coordinator.go:230-328 | The loop over the branch map, deleting from it on the way, leaves and returns what CommitPass says for the order it took |
| Coordinator.TransactionCoordinator.DoGlobalRollback | pkg/tc/server/transaction_coordinator.go:443-567 | The same for RollbackPass; exactly what, PassResults.RollbackPassIs says |
| Coordinator.TransactionCoordinator.VisitCommitBranch | pkg/tc/server/transaction_coordinator.go:243-302 | One branch: what each answer does to session, branch set, rows and copy, and whether the loop goes on |
| Coordinator.TransactionCoordinator.VisitRollbackBranch | pkg/tc/server/transaction_coordinator.go:456-527 | The same for rollback; a branch reported PhaseOneFailed is settled without a call |
| Coordinator.TransactionCoordinator.FinishPass | pkg/tc/server/transaction_coordinator.go:304-321 | The second look at the store, then final status, rows and removal, in that order |
| Coordinator.TransactionCoordinator.BranchRegister | pkg/tc/server/transaction_coordinator.go:709-799 | Refusals in the source's order; LockKeyConflict for an AT branch if and only if LockMap has a row of its lock key under another transaction, and then no transaction changes; otherwise a new branch with the request's fields is stored and its transaction has all its rows; the past is extended |
| Coordinator.TransactionCoordinator.BranchReport | pkg/tc/server/transaction_coordinator.go:801-833 | The status of a stored branch with that id is recorded, and no other changes; the errors say which lookup failed |
| Coordinator.TransactionCoordinator.LockQuery | pkg/tc/server/transaction_coordinator.go:835-841 | True exactly when no asked row is held by another transaction id |
| Coordinator.TransactionCoordinator.TimeoutCheck | pkg/tc/server/transaction_coordinator.go:887-916 | Without interference between scan and writes: every open session is looked at once; it is closed and set to TimeoutRollingBack exactly if its time is up by its own reading of the clock, and nothing else changes |
| Storage.ElapsedMeans | pkg/tc/server/transaction_coordinator.go:1020-1022 | When the unsigned comparison says that a session's time is up: after the limit, but also whenever the clock is behind the beginning; the exact condition for negative limits too |
| Storage.RetryTimeoutMeans | pkg/tc/server/transaction_coordinator.go:950-955 | The signed comparison is true exactly when the limit is not negative and the time since the beginning exceeds it |
| Coordinator.TransactionCoordinator.RetryRollback | pkg/tc/server/transaction_coordinator.go:929-946 | The body of the rollback loop: left alone while not dead, removed when too old, else another pass |
| Coordinator.TransactionCoordinator.RetryCommit | pkg/tc/server/transaction_coordinator.go:971-984 | The body of the commit loop: removed when too old, else another pass |
| Coordinator.TransactionCoordinator.RetryAsync | pkg/tc/server/transaction_coordinator.go:996-1004 | The body of the asynchronous loop: another pass |
| Coordinator.TransactionCoordinator.HandleRetries | pkg/tc/server/transaction_coordinator.go:918-1005 | Each loop retries every waiting transaction of the connected applications once, in some order, and no other; each is left as its own retry on the store before the round leaves it |
| Coordinator.TransactionCoordinator.HeldRowsAreCovered | pkg/tc/server/transaction_coordinator.go:709-792 | After any calls of the class, every row in LockMap is covered by an AT branch of its transaction: a stored one, or one that the decision of a removed transaction missed |
| Coordinator.TransactionCoordinator.LockQueryPredicts | pkg/tc/server/transaction_coordinator.go:835-841 | For an open transaction LockQuery is true exactly when registering an AT branch with that lock key would be accepted |
| Driver.Driver.ValidAfter | pkg/tc/storage/driver/inmemory/inmemory.go:29-34 | An operation on one transaction keeps session map, branch sets, session objects and branch objects in agreement |
| Driver.Driver.AddGlobalSession | pkg/tc/storage/driver/inmemory/inmemory.go:36-43 | Stores a new session with no branches |
| Driver.Driver.FindGlobalSession | pkg/tc/storage/driver/inmemory/inmemory.go:45-52 | The stored session object itself, or nothing |
| Driver.Driver.FindGlobalSessions | pkg/tc/storage/driver/inmemory/inmemory.go:55-74 | Every stored session with one of the statuses, once |
| Driver.Driver.FindGlobalSessionsWithAddressingIdentities | pkg/tc/storage/driver/inmemory/inmemory.go:76-104 | The same, restricted to the addresses |
| Driver.Driver.UpdateGlobalSessionStatus | pkg/tc/storage/driver/inmemory/inmemory.go:117-126 | Writes the status of a stored session; an error otherwise |
| Driver.Driver.InactiveGlobalSession | pkg/tc/storage/driver/inmemory/inmemory.go:128-137 | Closes a stored session; an error otherwise |
| Driver.Driver.RemoveGlobalSession | pkg/tc/storage/driver/inmemory/inmemory.go:139-142 | The session and its branch set are gone; nothing else is |
| Driver.Driver.AddBranchSession | pkg/tc/storage/driver/inmemory/inmemory.go:145-153 | Adds the branch under a stored session; an error otherwise |
| Driver.Driver.FindBranchSessions | pkg/tc/storage/driver/inmemory/inmemory.go:156-168 | The branch set of a stored session, each branch once |
| Driver.Driver.FindBatchBranchSessions | pkg/tc/storage/driver/inmemory/inmemory.go:170-183 | All branches of the named sessions and no other, each under its own XID |
| Driver.Driver.UpdateBranchSessionStatus | pkg/tc/storage/driver/inmemory/inmemory.go:185-188 | Writes through the shared branch object |
| Driver.Driver.RemoveBranchSession | pkg/tc/storage/driver/inmemory/inmemory.go:191-199 | Takes the branch out of a stored session's set; an error when the session is gone |
| Driver.Driver.AcquireLock | pkg/tc/storage/driver/inmemory/inmemory.go:202-223 | The storing loop, and on a conflict the release of the whole request: LockMap afterwards is as AcquireRows says |
| Driver.AcquireRowsMeaning | pkg/tc/storage/driver/inmemory/inmemory.go:202-223 | For one transaction's rows, repeated keys included: true exactly when no row is held by another; then all are its own; a refusal drops the requested rows it held and nothing else |
| Driver.TryStoreReleased | pkg/tc/storage/driver/inmemory/inmemory.go:215-216 | Releasing the request undoes whatever the loop stored before the conflict |
| Driver.Driver.ReleaseLock | pkg/tc/storage/driver/inmemory/inmemory.go:225-238 | Deletes exactly the named rows that the named transaction holds |
| Driver.Driver.IsLockable | pkg/tc/storage/driver/inmemory/inmemory.go:241-250 | True exactly when no row of the lock key is held by another transaction id than the XID's |
| Driver.GlobalTransaction.GetBranch | pkg/tc/model/global_transaction.go:23-30 | A branch with the id, or nothing only if there is none |
| Driver.GlobalTransaction.CanBeCommittedAsync | pkg/tc/model/global_transaction.go:32-39 | True exactly when every branch commits asynchronously |
| Driver.GlobalTransaction.IsSaga | pkg/tc/model/global_transaction.go:41-48 | True exactly when some branch is SAGA |
| Holder.SessionHolder.FindGlobalTransaction | pkg/tc/holder/session_holder.go:44-58 | The stored session shared, with a copy of its branch set |
| Holder.SessionHolder.FindGlobalTransactionsByGlobalSessions | pkg/tc/holder/session_holder.go:89-129 | The batch gives, session by session in order, the branch set that the single lookup gives |
| Holder.SessionHolder.FindGroups | pkg/tc/holder/session_holder.go:97-111 | Grouping the batch's branches by their own XID gives each session its own branch set |
| Holder.SessionHolder.FindGlobalTransactionsWithAddressingIdentities | pkg/tc/holder/session_holder.go:60-87 | The retry finders: every stored transaction with the statuses and addresses, once, with its branch set |
| Holder.SessionHolder.UpdateGlobalSessionStatus | pkg/tc/holder/session_holder.go:139-142 | Writes the caller's session even when the store has lost it, and then says so |
| Holder.SessionHolder.InactiveGlobalSession | pkg/tc/holder/session_holder.go:144-147 | The same for the active flag |
| Holder.SessionHolder.RemoveGlobalTransaction | pkg/tc/holder/session_holder.go:153-165 | The session is removed in any case; the call succeeds exactly when the caller's copy has no branches |
| LockManager.LockManager.AcquireLock | pkg/tc/lock/lock_manager.go:27-53 | Asks for the rows of the branch's lock key; true with nothing changed when there are none |
| LockManager.LockManager.ReleaseLock | pkg/tc/lock/lock_manager.go:55-71 | Drops exactly the branch's rows that its transaction holds |
| LockManager.LockManager.ReleaseGlobalSessionLock | pkg/tc/lock/lock_manager.go:73-80 | Drops exactly the rows of all the branches in the caller's copy |
| LockManager.LockQueryPredictsRegistration | pkg/tc/storage/driver/inmemory/inmemory.go:241-250 | For an XID made by GenerateXID, any address and any int64 id, IsLockable equals what AcquireLock would answer in the same state |
| RowLocker.CollectRowLocksOf | pkg/tc/storage/row_locker.go:24-67 | The nested loops give the rows that the lock key means, in order, or nil for a malformed group |
| RowLocker.ParserUndoesPrinter | pkg/tc/storage/row_locker.go:24-67 | The rows of a printed list of groups have, in order, exactly its tables and primary keys, with resource^^^table^^^pk as row key and the owner's fields |
| RowLocker.ParserReads | pkg/tc/storage/row_locker.go:24-67 | Any text: it gives nil if and only if one of its groups has no colon or nothing behind the first one, and else exactly the rows that a group names |
| RowLocker.RowKeyInjective | pkg/tc/storage/row_locker.go:69-71 | Without '^' in resource and table, a row key determines resource, table and primary key |
| RowLocker.SomeRowsCollide | pkg/tc/storage/row_locker.go:69-71 | Two tables have primary keys, none empty, with equal row keys if and only if resource^^^table^^^ of one is a prefix of that of the other |
| RowLocker.RowKeyCollision | pkg/tc/storage/row_locker.go:69-71 | Two rows that share a key |
| RowLocker.MeaningOwned | pkg/tc/storage/row_locker.go:13-67 | Every row of a lock key carries the owner's transaction, XID, branch and resource, a primary key, and the row key that goes with them |
| RowLocker.GroupsRowsKeys | pkg/tc/storage/row_locker.go:13-22 | The row keys of a lock key depend on the resource only, not on who asks |
| Text.SplitJoin | pkg/tc/storage/row_locker.go:30-56 | Splitting undoes joining when no part contains the separator |
| Text.ParseDecimal | pkg/util/common/xid.go:13-24 | Parsing a printed int64 gives it back |
| Text.ParseDigits | pkg/util/common/xid.go:13-24 | Digits with or without a sign parse to their number, or to the nearest bound of int64 |
| Text.ParseBad | pkg/util/common/xid.go:13-24 | A character that is no digit makes the number 0 |
| Xid.TransactionIDOfGenerated | pkg/util/common/xid.go:9-24 | GetTransactionID undoes GenerateXID for any address, colons included, and any int64 |
| Xid.TransactionIDOfAny | pkg/util/common/xid.go:13-24 | An XID of another make gives -1, or what stands behind its last colon as a number |
| Xid.GenerateXIDInjective | pkg/util/common/xid.go:9-11 | Equal XIDs have equal addresses and ids |
| Mysql.MysqlDriver.AcquireLock | pkg/tc/storage/driver/mysql/mysql.go:412-480 | Dedupe, check by XID, drop what is there, insert: answer and table are as Acquired says, with and without skipCheckLock; out of range, with nothing changed, on an empty request |
| Mysql.MysqlDriver.InsertRowLock | pkg/tc/storage/driver/mysql/mysql.go:456-479 | All rows or none: it succeeds exactly when no key is repeated or taken |
| Mysql.MysqlDriver.ReleaseLock | pkg/tc/storage/driver/mysql/mysql.go:483-502 | Deletes exactly the named rows stored under the first row's XID |
| Mysql.MysqlDriver.IsLockable | pkg/tc/storage/driver/mysql/mysql.go:505-525 | True exactly when no row of the lock key is stored under another XID; out of range when the lock key has no row |
| Mysql.DistinctByKey | pkg/tc/storage/driver/mysql/mysql.go:527-540 | The first row of each key, in order |
| Mysql.FirstsOf | pkg/tc/storage/driver/mysql/mysql.go:527-540 | Deduplication keeps every key and repeats none |
| Mysql.Unrepeated | pkg/tc/storage/driver/mysql/mysql.go:440-446 | The rows whose key the query did not find, in order |
| Mysql.SkippedCheck | pkg/tc/storage/driver/mysql/mysql.go:412-480 | With skipCheckLock: granted if and only if no key is asked for twice or stored; then all rows are stored as they are, and otherwise nothing changes |
| Mysql.CheckedStores | pkg/tc/storage/driver/mysql/mysql.go:412-480 | A granted request stores the first row of each key that was free and leaves stored rows as they were |
| Locking.MysqlAcquires | pkg/tc/storage/driver/mysql/mysql.go:412-480 | True exactly when no requested row is held by another; then all are the requester's and nothing else changed; a refusal changes nothing |
| Locking.MysqlReleases | pkg/tc/storage/driver/mysql/mysql.go:483-502 | Deleting by key and XID is releasing by key and transaction id |
| Locking.SameConflict | pkg/tc/storage/driver/mysql/mysql.go:426-436 | A conflict by XID is a conflict by transaction id |
| Locking.TwoAlgorithmsOneSpecification | pkg/tc/storage/driver/mysql/mysql.go:412-480 | From like tables both drivers answer alike and leave all other rows alone; the tables agree afterwards if and only if the request was granted or the requester held none of the rows |
| Locking.GeneratedNamesDiffer | pkg/util/common/xid.go:9-24 | XIDs made for different int64 ids differ, whatever addresses they are made with: the names the comparison of the two drivers needs |
| Locking.AlikeForBranches | pkg/tc/lock/lock_manager.go:27-71 | So both drivers are alike for the rows of any branch under a generated XID, acquired and released |
| Locking.LockableAlike | pkg/tc/storage/driver/mysql/mysql.go:505-525 | And they answer a lock query alike |
| Locking.RowKeysAreFaithful | pkg/tc/storage/row_locker.go:69-71 | Over every run of requests and releases, string-keyed locks answer and hold what locks on the rows themselves would: one owner per real row |
| Locking.BranchClaimsRealRows | pkg/tc/storage/row_locker.go:24-71 | A branch with a printed lock key claims exactly the keys of the real rows printed |
| Locking.RegistrationLocksRealRows | pkg/tc/server/transaction_coordinator.go:753-778 | Without `^` in resource and tables, registering such an AT branch is refused if and only if one of the real rows is with another transaction; accepted, its transaction holds exactly those in addition; refused, those it held are freed |
| RowSteps.CallAsOneStep | pkg/tc/storage/driver/inmemory/inmemory.go:202-238 | However calls interleave row by row, if no transaction has two under way, a call leaves its transaction with exactly the rows that one step with its answer would |
| RowSteps.OwnRowsOnly | pkg/tc/storage/driver/inmemory/inmemory.go:202-238 | And no operation of a call changes a row of another transaction |
| RowSteps.AnswersFound | pkg/tc/storage/driver/inmemory/inmemory.go:202-223 | In every run, a refused call has met a requested row of another transaction while under way, and a granted one has found every row free or its own when it stored it |
| RowSteps.BothRefused | pkg/tc/storage/driver/inmemory/inmemory.go:208-220 | A run: two transactions refuse each other the same two rows, which nobody holds before or after |
| RowSteps.RowTaken | pkg/tc/storage/driver/inmemory/inmemory.go:230-235 | A run: two releases of one transaction overlap, and one deletes a row that another transaction was granted |
| Exchange.OwnAnswer | pkg/tc/server/transaction_coordinator.go:569-614 | In every interleaving with fewer than 2^64 messages, a caller's answer is the resource manager's to that very message, of the type asked for; the unchecked type assertion never fails |
| Exchange.WokenOnce | pkg/tc/server/transaction_coordinator.go:362-368 | A waiter is woken at most once |
| Exchange.SignalledByOwnReply | pkg/tc/server/transaction_coordinator.go:673-704 | The stream that wakes a waiter holds a reply with the waiter's own ID, already stored in its future |
| Exchange.WhereAnswersComeFrom | pkg/tc/server/transaction_coordinator.go:330-380 | A status is returned only because the queue was full and the branch has it, or because the resource manager answered this message with it |
| Exchange.WhatItReturns | pkg/tc/server/transaction_coordinator.go:330-380 | A status is given if and only if the queue was full and it is the branch's own, or the response reports success with it |
| Exchange.ReadsItsFuture | pkg/tc/server/transaction_coordinator.go:356-380 | A caller that was signalled returns its future's response |
| Exchange.FuturesAreExact | pkg/tc/server/transaction_coordinator.go:330-380 | In every state of every run, the future of a call is stored if and only if the call waits, or its timer has fired and it has not returned yet, or the stream that has woken it has not deleted it yet |
| Exchange.StepInv | pkg/client/rm/resource_manager.go:111-150 | Every step keeps: whatever is in flight, loaded or stored is about the call whose ID it carries, and of its kind |
| Exchange.RepliesAreAnswers | pkg/client/rm/resource_manager.go:111-150 | Every reply repeats the ID of a request that was handed to a stream, with the matching kind |
| Exchange.BlockedForEver | pkg/tc/server/transaction_coordinator.go:673-704 | In every state of every run, a stream that has stored a response can signal if its waiter still waits; if not, it stays there for ever |
| Exchange.StreamCanBlock | pkg/tc/server/transaction_coordinator.go:362-366 | A run in which that happens |
| Varint.EncodeVarintSeata | pkg/apis/seata.pb.go:4666-4676 | Writes the varint so that it ends at the offset, returns its start, and touches no byte outside |
| Varint.SovIsExact | pkg/apis/seata.pb.go:5269-5271 | sovSeata is the number of bytes written |
| Varint.TenBytes | pkg/apis/seata.pb.go:4666-4676 | A uint64 takes at most ten bytes |
| Varint.DecodeVarint | pkg/apis/seata.pb.go:5613-5627 | The inlined loop, with its shifts and `or`, reads the groups of at most ten bytes into a 32- or 64-bit accumulator, with its two errors in their order; on an error the accumulator holds the groups read |
| Varint.ReadBytes | pkg/apis/seata.pb.go:5613-5627 | Reading undoes writing for every uint64, whatever follows |
| Varint.SignedUnsigned | pkg/apis/seata.pb.go:5749-5788 | Sign extension to uint64 is undone by the int32 and int64 accumulators |
| Varint.OrNext | pkg/apis/seata.pb.go:5622-5622 | The bits that the loop joins are disjoint, in accumulators of 32 and 64 bits, and what it leaves there is the value of the groups read, modulo its width |
| Skip.SkipSeata | pkg/apis/seata.pb.go:9553-9624 | The scan with its depth counter terminates on every input and returns what SkipFrom says, each error included |
| Skip.SkipIsGrammar | pkg/apis/seata.pb.go:9553-9624 | It stops at n inside the input if and only if the first n bytes are one well-formed field, groups nested to any depth |
| Skip.SkipsField | pkg/apis/seata.pb.go:9553-9624 | On a well-formed field with any suffix it ends behind the field at the top level and goes on there inside a group |
| Skip.SkipsAhead | pkg/apis/seata.pb.go:9553-9624 | A successful scan has moved forward |
| Message.MarshalToSizedBuffer | pkg/apis/seata.pb.go:3460-3517 | Backward, field by field, it fills exactly the last Size bytes with the encoding and leaves those before alone |
| Message.Marshal | pkg/apis/seata.pb.go:3445-3453 | The buffer of Size bytes is the encoding, to its first byte |
| Message.SizeIsExact | pkg/apis/seata.pb.go:4677-4711 | Size is the length of the encoding |
| Message.MarshalField | pkg/apis/seata.pb.go:3501-3513 | One field written backward; nothing for a default value; no byte outside is touched |
| Message.Unmarshal | pkg/apis/seata.pb.go:5607-5848 | The loop over the buffer returns what Decode says, each error included, and leaves in the message what Left says |
| Message.FailureLeaves | pkg/apis/seata.pb.go:5607-5848 | A failed Unmarshal has decoded the whole fields in front; what it leaves is their message, but for the field that failed |
| Message.LeavesOne | pkg/apis/seata.pb.go:5749-5768 | That field differs only if it is the number that a tag of wire type 0 names, and its varint broke off |
| Message.UnmarshalField | pkg/apis/seata.pb.go:5634-5664 | One known field by its kind: wire type, length and bounds checks in their order, and what the field holds afterwards |
| Message.UnmarshalUnknown | pkg/apis/seata.pb.go:5826-5840 | An unknown field is skipped from its tag, with the overflow and bounds checks |
| Message.RoundTrip | pkg/apis/seata.pb.go:5607-5848 | Decoding an encoding into a zero message gives the message, for every table of up to fifteen fields |
| Message.GlobalSessionRoundTrip | pkg/apis/seata.pb.go:3445-3517 | Every GlobalSession survives, negative numbers and unset fields included |
| Message.BranchSessionRoundTrip | pkg/apis/seata.pb.go:3519-3605 | So does every BranchSession |
| Message.Concatenation | pkg/apis/seata.pb.go:5849-6156 | If a decodes, a followed by b decodes exactly when b decodes into what a left, and to the same message |
| Message.UnknownFieldIgnored | pkg/apis/seata.pb.go:6137-6151 | A well-formed field with an unknown number in front changes neither success nor message |
| Message.DecodesAnywhere | pkg/apis/seata.pb.go:5607-5848 | What a message decodes to does not depend on its index in the input |
| Message.TagConstants | pkg/apis/seata.pb.go:3460-3605 | The tags computed from the field tables are the constants in the code |
| Parsing.DecodesLists | pkg/apis/seata.pb.go:5607-5848 | Unmarshal accepts an input if and only if it is a list of well-formed fields with positive numbers, of the right wire type where the number is known; the message is then what putting them in one after the other makes, so that the last one of a number stands, unknown ones leave no trace, and long varints lose their upper bits |
| Parsing.PutIsRead | pkg/apis/seata.pb.go:5634-5664 | One such field in front is read whole and put into the message, whatever follows |
| Parsing.ReadIsPut | pkg/apis/seata.pb.go:5613-5848 | What one round of the loop reads is one such field |
| IdWorker.Worker.NextID | pkg/util/uuid/id_worker.go:59-63 | The n-th call returns the n-th id of its worker |
| IdWorker.Worker.Init | pkg/util/uuid/id_worker.go:51-57 | Sets the worker exactly if the node is between 0 and 1023; an error otherwise |
| IdWorker.Repeats | pkg/util/uuid/id_worker.go:59-63 | Two calls give the same id if and only if a multiple of 2^53 calls lies between |
| IdWorker.Increasing | pkg/util/uuid/id_worker.go:59-63 | Within such a stretch a later id is greater exactly when the low 53 bits have not wrapped |
| IdWorker.IdFields | pkg/util/uuid/id_worker.go:37-43 | An id is a non-negative int64 from which worker and counter can be read back |
| IdWorker.WorkersDiffer | pkg/util/uuid/id_worker.go:37-43 | Two workers never share an id |
| IdWorker.OrIsSum | pkg/util/uuid/id_worker.go:61-62 | Masking and joining the two fields is taking a remainder and adding |

## Left out

- GlobalSessionLocker: its contract is assumed for what the code does under it: the decision of `Commit` and of `Rollback`, `BranchRegister`, and the writes of `timeoutCheck` for one session are one step each. The default locker does nothing (pkg/tc/server/global_session_locker.go:18-24), and then they are not. Lookups, scans, the two reads of a retry loop, `BranchReport` and every branch of a pass are steps of their own; the end of a pass (second look, final status, release, removal) is one step. A lock that cannot be had, and `timeoutCheck` returning without unlocking when its session is gone, are left out.
- Coordinator.TransactionCoordinator.BranchRegister: a session that is removed between its lookup and its lock is refused as not existing here, as not active by the source.
- Coordinator.TransactionCoordinator.Commit: from lookup to answer without interference, and so Coordinator.TransactionCoordinator.Rollback; what comes between lookup and decision is in `LookUpTransaction`, `CommitFound` and `RollbackFound`, what comes between the branches of a pass in the machine only.
- Coordinator.TransactionCoordinator.TimeoutCheck: scan and writes of one round without interference; late writes are in the machine only.
- RowCover.StepLocks: a driver call is one step, also where the source loads and deletes row by row; `RowSteps.dfy` says what that leaves out, for the in-memory driver. Its theorems need that no transaction has two lock calls under way, which nothing in the source ensures for two rollback passes.
- Runs of the background loops: one goroutine runs each loop, so a loop is done with a transaction before it finds it again, as in pkg/tc/server/transaction_coordinator.go:843-885; passes of different handlers for one transaction interleave.
- `branchCommit` and `branchRollback` seen from a pass: the answer is an arbitrary function of the branch within one pass, and an arbitrary value at every step of the machine; `Exchange.dfy` models the calls themselves.
- `NextID` seen from `Begin`: it gives an id that no transaction has, as `IdWorker.Repeats` and `IdWorker.WorkersDiffer` show for 2^53 calls. Branch ids may repeat.
- The clock is a parameter: one reading at the start of a round and one for each transaction or session looked at. Fairness of timers, and that resource managers answer at all, are not modelled.
- `skipCheckLock` and the JSON it comes in: an opaque boolean; the comparison of the two drivers is without it.
- Coordinator.TransactionCoordinator.HandleRetries: one method stands for the three loops, which differ in statuses and body only; the addresses of connected applications are a parameter, `activeApplications` itself is not modelled.
- The in-memory driver's own `GlobalTransaction` values never leave it; they are a datatype there. Sessions and branches are shared objects, as in the source.
- Message.Unmarshal: nil and empty bytes are the same value, as for `Equal`. A Go slice is shorter than 2^63 bytes.
- Database errors, SQL text, connections, transactions of the database, its collation and the length limits of its columns; pgsql, whose lock algorithm is the same.
- Mysql.MysqlDriver.InsertRowLock: the check and the insert of one call are not interleaved with other calls.
- Exchange.OwnAnswer: messages that fail to unmarshal are lost messages; the contents of requests, and the count of active applications, are not modelled.
- SAGA mode beyond its refusal, `GlobalReport`, events, logging, metrics, gRPC, TLS, configuration, the client proxies and their retries.
- The other generated messages, getters and `String` methods repeat the two modelled ones or have no content.
