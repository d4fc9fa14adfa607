/** What each handler of pkg/tc/server/transaction_coordinator.go, run without interference, makes of its
    transaction and the lock table, and what it answers. Each is a run of the machine of Protocol.dfy. */
module Handlers {
  import opened Apis
  import opened Storage
  import opened Protocol
  import opened Invariant
  import opened RowCover
  import opened Runs
  import opened Passes
  import Text
  import Xid

  /** An answer to the transaction manager: a global status, an exception code with one, or an error of
      the call itself. */
  datatype Response = Success(status: GlobalStatus) | Failed(code: ExceptionCode, status: GlobalStatus) | RpcError

  /** `Commit` of a transaction that was looked up before, with the copy of the branch set from then. It
      answers Committed whenever the pass returned no error, whether or not it came to its end. */
  function HandleCommit(tx: Tx, locks: LockTable, copy: set<BranchSession>, order: seq<BranchSession>, oracle: Oracle): (Response, Tx, LockTable)
  {
    var (go, tx', locks') := DecideCommit(tx, locks, copy);
    if go then CommitDecided(tx', locks', copy, order, oracle)
    else (Success(if tx'.status == AsyncCommitting then Committed else tx'.status), tx', locks')
  }

  function CommitDecided(tx: Tx, locks: LockTable, copy: set<BranchSession>, order: seq<BranchSession>, oracle: Oracle): (Response, Tx, LockTable)
  {
    if AllAsync(copy) then (Success(Committed), tx.(status := AsyncCommitting), locks)
    else
      var r := CommitPass(tx, locks, copy, order, false, oracle);
      (if r.error then Failed(UnknownErr, r.tx.status) else Success(Committed), r.tx, r.locks)
  }

  function HandleRollback(tx: Tx, locks: LockTable, copy: set<BranchSession>, order: seq<BranchSession>, oracle: Oracle): (Response, Tx, LockTable)
  {
    var (go, tx') := DecideRollback(tx);
    if go then RollbackDecided(tx', locks, copy, order, oracle) else (Success(tx'.status), tx', locks)
  }

  function RollbackDecided(tx: Tx, locks: LockTable, copy: set<BranchSession>, order: seq<BranchSession>, oracle: Oracle): (Response, Tx, LockTable)
  {
    var r := RollbackPass(tx, locks, copy, order, false, oracle);
    (if r.error then RpcError else Success(r.tx.status), r.tx, r.locks)
  }

  /** One transaction of a retry loop, which read the clock at `now` when it began and at `clock` here. */
  function Retried(cfg: Config, kind: Kind, now: int, clock: int, tx: Tx, locks: LockTable, order: seq<BranchSession>, oracle: Oracle): (Tx, LockTable)
    requires kind.Retries()
  {
    var begin := tx.session.BeginTime;
    if kind == RetryRollback then
      if tx.status == RollingBack && !Elapsed(clock, begin, cfg.rollbackDeadSeconds) then (tx, locks)
      else if IsRetryTimeout(now, cfg.maxRollbackRetryTimeout, begin) then
        (Removed(tx), if cfg.rollbackRetryTimeoutUnlockEnable then Released(locks, ClaimsOf(tx.branches)) else locks)
      else
        var r := RollbackPass(tx, locks, tx.branches, order, true, oracle);
        (r.tx, r.locks)
    else if kind == RetryCommit && IsRetryTimeout(now, cfg.maxCommitRetryTimeout, begin) then (Removed(tx), locks)
    else
      var r := CommitPass(tx, locks, tx.branches, order, true, oracle);
      (r.tx, r.locks)
  }

  /** The statuses a retry loop asks the store for. */
  function StatusesOf(kind: Kind): (statuses: seq<GlobalStatus>)
    requires kind.Retries()
    ensures forall s :: s in statuses <==> Wanted(kind, s)
  {
    match kind
    case RetryCommit => [CommitRetrying]
    case AsyncCommit => [AsyncCommitting]
    case RetryRollback => [RollingBack, RollbackRetrying, TimeoutRollingBack, TimeoutRollbackRetrying]
  }

  /** A round of a retry loop over the transactions it found, in that order. */
  function RetryAll(cfg: Config, kind: Kind, now: int, clock: int -> int, st: Store,
                    xids: seq<string>, orders: seq<seq<BranchSession>>, oracle: Oracle): Store
    requires kind.Retries() && |xids| == |orders|
  {
    if xids == [] then st
    else
      var last := |xids| - 1;
      var before := RetryAll(cfg, kind, now, clock, st, xids[..last], orders[..last], oracle);
      RetryNext(cfg, kind, now, clock(last), before, xids[last], orders[last], oracle)
  }

  function RetryNext(cfg: Config, kind: Kind, now: int, clock: int, st: Store, x: string, order: seq<BranchSession>, oracle: Oracle): Store
    requires kind.Retries()
  {
    if x !in st.txs then st
    else
      var (tx, locks) := Retried(cfg, kind, now, clock, st.txs[x], st.locks, order, oracle);
      Update(st, x, tx, locks)
  }

  lemma RetryAllNext(cfg: Config, kind: Kind, now: int, clock: int -> int, st: Store, xids: seq<string>, i: nat,
                     orders: seq<seq<BranchSession>>, order: seq<BranchSession>, oracle: Oracle)
    requires kind.Retries() && |orders| == i < |xids|
    ensures
      RetryAll(cfg, kind, now, clock, st, xids[..i + 1], orders + [order], oracle) ==
        RetryNext(cfg, kind, now, clock(i), RetryAll(cfg, kind, now, clock, st, xids[..i], orders, oracle), xids[i], order, oracle)
  {
    hide RetryNext;
    assert xids[..i + 1][..i] == xids[..i] && (orders + [order])[..i] == orders;
  }

  /** A round of `timeoutCheck` over the sessions it found. */
  function TimeoutAll(clock: int -> int, st: Store, xids: seq<string>): Store
  {
    if xids == [] then st
    else
      var last := |xids| - 1;
      TimeoutNext(TimeoutAll(clock, st, xids[..last]), xids[last], clock(last))
  }

  function TimeoutNext(st: Store, x: string, now: int): Store
  {
    if x !in st.txs then st else Update(st, x, DecideTimeout(st.txs[x], now), st.locks)
  }

  // Each is a run ---------------------------------------------------------------------------------------

  /** The steps lead from (t, locks) to (t', locks'). */
  predicate Performs(cfg: Config, t: TxState, locks: LockTable, acts: seq<LocalAction>, t': TxState, locks': LockTable)
    decreases |acts|
  {
    if acts == [] then t == t' && locks == locks'
    else
      EnabledOn(t, acts[0])
      && var (u, between) := ApplyOn(cfg, t, locks, acts[0]);
         Performs(cfg, u, between, acts[1..], t', locks')
  }

  lemma PerformsFirst(cfg: Config, t: TxState, locks: LockTable, a: LocalAction, acts: seq<LocalAction>, t': TxState, locks': LockTable)
    requires EnabledOn(t, a)
    requires var (u, between) := ApplyOn(cfg, t, locks, a); Performs(cfg, u, between, acts, t', locks')
    ensures Performs(cfg, t, locks, [a] + acts, t', locks')
  {
    assert ([a] + acts)[1..] == acts;
  }

  /** What a pass leaves alone. */
  predicate SameBeside(t: TxState, t': TxState)
  {
    t'.picked == t.picked && t'.late == t.late && t'.scanned == t.scanned && t'.copies == t.copies
  }

  lemma PerformsOne(cfg: Config, t: TxState, locks: LockTable, a: LocalAction)
    requires EnabledOn(t, a)
    ensures
      var (u, between) := ApplyOn(cfg, t, locks, a);
      Performs(cfg, t, locks, [a], u, between)
  {
    hide ApplyOn, EnabledOn;
    var (u, between) := ApplyOn(cfg, t, locks, a);
    assert Performs(cfg, u, between, [], u, between);
    PerformsFirst(cfg, t, locks, a, [], u, between);
    assert [a] + [] == [a];
  }

  lemma CommitStepDoes(cfg: Config, t: TxState, locks: LockTable, kind: Kind, b: BranchSession, answer: Answer)
    requires kind.Commits() && Protocol.Runs(t, kind) && b in t.jobs[kind].work.todo
    ensures EnabledOn(t, Visit(kind, b, answer))
    ensures
      var n := VisitCommit(t.tx, locks, t.jobs[kind].work, b, kind.Retries(), answer);
      var (u, between) := ApplyOn(cfg, t, locks, Visit(kind, b, answer));
      && u.tx == n.tx && between == n.locks && SameBeside(t, u)
      && (if n.outcome.GoesOn? then u.jobs == t.jobs[kind := Job(n.work, true)] else u.jobs == t.jobs - {kind})
  {
    hide VisitCommit;
  }

  lemma FinishDoes(cfg: Config, t: TxState, locks: LockTable, kind: Kind)
    requires Protocol.Runs(t, kind) && t.jobs[kind].work.todo == {}
    ensures EnabledOn(t, Finish(kind))
    ensures
      var w := t.jobs[kind].work;
      var n := if kind.Commits() then FinishCommit(t.tx, locks, w) else FinishRollback(t.tx, locks, w);
      var (u, between) := ApplyOn(cfg, t, locks, Finish(kind));
      u.tx == n.tx && between == n.locks && SameBeside(t, u) && u.jobs == t.jobs - {kind}
  {
  }

  lemma {:induction false} CommitLoopIsRun(cfg: Config, t: TxState, locks: LockTable, kind: Kind, order: seq<BranchSession>, oracle: Oracle)
    returns (acts: seq<LocalAction>, t': TxState)
    requires kind.Commits() && Protocol.Runs(t, kind)
    requires var w := t.jobs[kind].work; w.todo <= w.branches && Enumerates(order, w.todo)
    ensures
      var r := CommitLoop(t.tx, locks, t.jobs[kind].work, order, kind.Retries(), oracle);
      Performs(cfg, t, locks, acts, t', r.locks) && t'.tx == r.tx && t'.jobs == t.jobs - {kind} && SameBeside(t, t')
    decreases |order|
  {
    hide VisitCommit, FinishCommit, FinishRollback, ApplyOn, EnabledOn;
    var w := t.jobs[kind].work;
    if order == [] {
      assert w.todo == {};
      FinishDoes(cfg, t, locks, kind);
      PerformsOne(cfg, t, locks, Finish(kind));
      return [Finish(kind)], ApplyOn(cfg, t, locks, Finish(kind)).0;
    }
    var b := order[0];
    var a := Visit(kind, b, oracle(b));
    EnumeratesTail(order, w.todo);
    CommitStepDoes(cfg, t, locks, kind, b, oracle(b));
    var (u, between) := ApplyOn(cfg, t, locks, a);
    VisitTodo(t.tx, locks, w, b, kind.Retries(), oracle(b));
    hide Enumerates, Performs;
    if VisitCommit(t.tx, locks, w, b, kind.Retries(), oracle(b)).outcome.Returns? {
      PerformsOne(cfg, t, locks, a);
      return [a], u;
    }
    var rest;
    rest, t' := CommitLoopIsRun(cfg, u, between, kind, order[1..], oracle);
    PerformsFirst(cfg, t, locks, a, rest, t', CommitLoop(u.tx, between, u.jobs[kind].work, order[1..], kind.Retries(), oracle).locks);
    acts := [a] + rest;
  }

  /** The step for one branch of a rollback: without a call for a branch reported as failed. */
  function RollbackStep(t: TxState, kind: Kind, b: BranchSession, oracle: Oracle): LocalAction
  {
    if NeedsNoCall(t.tx, b) then Spare(kind, b) else Visit(kind, b, oracle(b))
  }

  lemma RollbackStepDoes(cfg: Config, t: TxState, locks: LockTable, kind: Kind, b: BranchSession, oracle: Oracle)
    requires !kind.Commits() && Protocol.Runs(t, kind) && b in t.jobs[kind].work.todo
    ensures EnabledOn(t, RollbackStep(t, kind, b, oracle))
    ensures
      var n := VisitRollback(t.tx, locks, t.jobs[kind].work, b, kind.Retries(), oracle(b));
      var (u, between) := ApplyOn(cfg, t, locks, RollbackStep(t, kind, b, oracle));
      && u.tx == n.tx && between == n.locks && SameBeside(t, u)
      && (if n.outcome.GoesOn? then u.jobs == t.jobs[kind := Job(n.work, true)] else u.jobs == t.jobs - {kind})
  {
    hide AnswerRollback, Settle, NeedsNoCall;
  }

  lemma {:induction false} RollbackLoopIsRun(cfg: Config, t: TxState, locks: LockTable, kind: Kind, order: seq<BranchSession>, oracle: Oracle)
    returns (acts: seq<LocalAction>, t': TxState)
    requires !kind.Commits() && Protocol.Runs(t, kind)
    requires var w := t.jobs[kind].work; w.todo <= w.branches && Enumerates(order, w.todo)
    ensures
      var r := RollbackLoop(t.tx, locks, t.jobs[kind].work, order, kind.Retries(), oracle);
      Performs(cfg, t, locks, acts, t', r.locks) && t'.tx == r.tx && t'.jobs == t.jobs - {kind} && SameBeside(t, t')
    decreases |order|
  {
    hide VisitRollback, FinishCommit, FinishRollback, ApplyOn, EnabledOn, RollbackStep;
    var w := t.jobs[kind].work;
    if order == [] {
      assert w.todo == {};
      FinishDoes(cfg, t, locks, kind);
      PerformsOne(cfg, t, locks, Finish(kind));
      return [Finish(kind)], ApplyOn(cfg, t, locks, Finish(kind)).0;
    }
    var b := order[0];
    var a := RollbackStep(t, kind, b, oracle);
    EnumeratesTail(order, w.todo);
    RollbackStepDoes(cfg, t, locks, kind, b, oracle);
    var (u, between) := ApplyOn(cfg, t, locks, a);
    VisitTodo(t.tx, locks, w, b, kind.Retries(), oracle(b));
    hide Enumerates, Performs;
    if VisitRollback(t.tx, locks, w, b, kind.Retries(), oracle(b)).outcome.Returns? {
      PerformsOne(cfg, t, locks, a);
      return [a], u;
    }
    var rest;
    rest, t' := RollbackLoopIsRun(cfg, u, between, kind, order[1..], oracle);
    PerformsFirst(cfg, t, locks, a, rest, t', RollbackLoop(u.tx, between, u.jobs[kind].work, order[1..], kind.Retries(), oracle).locks);
    acts := [a] + rest;
  }

  /** From a decision to commit to the handler's end. */
  lemma CommitDecidedIsRun(cfg: Config, u: TxState, locks: LockTable, copy: set<BranchSession>, order: seq<BranchSession>, oracle: Oracle)
    returns (acts: seq<LocalAction>, t': TxState)
    requires u.jobs == map[SyncCommit := NewJob(copy)] && Enumerates(order, copy)
    ensures
      var (_, tx', locks') := CommitDecided(u.tx, locks, copy, order, oracle);
      Performs(cfg, u, locks, acts, t', locks') && t'.tx == tx' && t'.jobs == map[] && SameBeside(u, t')
  {
    hide CommitLoop, Enumerates, HasSaga, AllAsync;
    var start := Start(SyncCommit, 0, 0);
    var v := Begun(cfg, u, locks, SyncCommit, 0, 0).0;
    if AllAsync(copy) || HasSaga(copy) {
      PerformsOne(cfg, u, locks, start);
      return [start], v;
    }
    var rest;
    rest, t' := CommitLoopIsRun(cfg, v, locks, SyncCommit, order, oracle);
    hide Performs;
    PerformsFirst(cfg, u, locks, start, rest, t', CommitLoop(v.tx, locks, v.jobs[SyncCommit].work, order, false, oracle).locks);
    acts := [start] + rest;
  }

  lemma HandleCommitIsRun(cfg: Config, t: TxState, locks: LockTable, copy: set<BranchSession>, order: seq<BranchSession>, oracle: Oracle)
    returns (acts: seq<LocalAction>, t': TxState)
    requires t.jobs == map[] && copy in t.copies && Enumerates(order, copy)
    ensures
      var (_, tx', locks') := HandleCommit(t.tx, locks, copy, order, oracle);
      Performs(cfg, t, locks, acts, t', locks') && t'.tx == tx' && t'.jobs == map[] && SameBeside(t, t')
  {
    hide CommitDecided, Enumerates, Performs, Released;
    var (u, between) := ApplyOn(cfg, t, locks, Commit(copy));
    if t.tx.status != Begin {
      PerformsOne(cfg, t, locks, Commit(copy));
      return [Commit(copy)], u;
    }
    var rest;
    rest, t' := CommitDecidedIsRun(cfg, u, between, copy, order, oracle);
    PerformsFirst(cfg, t, locks, Commit(copy), rest, t', CommitDecided(u.tx, between, copy, order, oracle).2);
    acts := [Commit(copy)] + rest;
  }

  lemma RollbackDecidedIsRun(cfg: Config, u: TxState, locks: LockTable, copy: set<BranchSession>, order: seq<BranchSession>, oracle: Oracle)
    returns (acts: seq<LocalAction>, t': TxState)
    requires u.jobs == map[SyncRollback := NewJob(copy)] && Enumerates(order, copy)
    ensures
      var (_, tx', locks') := RollbackDecided(u.tx, locks, copy, order, oracle);
      Performs(cfg, u, locks, acts, t', locks') && t'.tx == tx' && t'.jobs == map[] && SameBeside(u, t')
  {
    hide RollbackLoop, Enumerates, HasSaga;
    var start := Start(SyncRollback, 0, 0);
    var v := Begun(cfg, u, locks, SyncRollback, 0, 0).0;
    if HasSaga(copy) {
      PerformsOne(cfg, u, locks, start);
      return [start], v;
    }
    var rest;
    rest, t' := RollbackLoopIsRun(cfg, v, locks, SyncRollback, order, oracle);
    hide Performs;
    PerformsFirst(cfg, u, locks, start, rest, t', RollbackLoop(v.tx, locks, v.jobs[SyncRollback].work, order, false, oracle).locks);
    acts := [start] + rest;
  }

  lemma HandleRollbackIsRun(cfg: Config, t: TxState, locks: LockTable, copy: set<BranchSession>, order: seq<BranchSession>, oracle: Oracle)
    returns (acts: seq<LocalAction>, t': TxState)
    requires t.jobs == map[] && copy in t.copies && Enumerates(order, copy)
    ensures
      var (_, tx', locks') := HandleRollback(t.tx, locks, copy, order, oracle);
      Performs(cfg, t, locks, acts, t', locks') && t'.tx == tx' && t'.jobs == map[] && SameBeside(t, t')
  {
    hide RollbackDecided, Enumerates, Performs;
    var (u, between) := ApplyOn(cfg, t, locks, Rollback(copy));
    if t.tx.status != Begin {
      PerformsOne(cfg, t, locks, Rollback(copy));
      return [Rollback(copy)], u;
    }
    var rest;
    rest, t' := RollbackDecidedIsRun(cfg, u, between, copy, order, oracle);
    PerformsFirst(cfg, t, locks, Rollback(copy), rest, t', RollbackDecided(u.tx, between, copy, order, oracle).2);
    acts := [Rollback(copy)] + rest;
  }

  /** A retried pass starts, or ends before its loop with what Retried says. */
  predicate StartsAs(t: TxState, locks: LockTable, kind: Kind, u: TxState, between: LockTable, tx': Tx, locks': LockTable,
                     order: seq<BranchSession>, oracle: Oracle)
  {
    var job := Job(Work(t.tx.branches, t.tx.branches), true);
    SameBeside(t, u)
    && (if kind !in u.jobs then u.jobs == map[] && u.tx == tx' && between == locks'
        else
          u.jobs == map[kind := job] && u.tx == t.tx && between == locks
          && var r := if kind.Commits() then CommitLoop(t.tx, locks, job.work, order, true, oracle)
                      else RollbackLoop(t.tx, locks, job.work, order, true, oracle);
             tx' == r.tx && locks' == r.locks)
  }

  lemma OneJob(t: TxState, kind: Kind)
    requires t.jobs == map[kind := NewJob(t.tx.branches)]
    ensures t.jobs - {kind} == map[]
    ensures t.jobs[kind := t.jobs[kind].(running := true)] == map[kind := Job(Work(t.tx.branches, t.tx.branches), true)]
  {
  }

  lemma RetriedCommitStart(cfg: Config, t: TxState, locks: LockTable, kind: Kind, now: int, clock: int, order: seq<BranchSession>, oracle: Oracle)
    requires kind.Retries() && kind.Commits() && Wanted(kind, t.tx.status) && t.jobs == map[kind := NewJob(t.tx.branches)]
    ensures
      var (u, between) := Begun(cfg, t, locks, kind, now, clock);
      var (tx', locks') := Retried(cfg, kind, now, clock, t.tx, locks, order, oracle);
      StartsAs(t, locks, kind, u, between, tx', locks', order, oracle)
  {
    OneJob(t, kind);
    hide CommitLoop, RollbackLoop, HasSaga, AllAsync, IsRetryTimeout, Elapsed, Released;
  }

  lemma RetriedRollbackStart(cfg: Config, t: TxState, locks: LockTable, now: int, clock: int, order: seq<BranchSession>, oracle: Oracle)
    requires t.jobs == map[RetryRollback := NewJob(t.tx.branches)]
    ensures
      var (u, between) := Begun(cfg, t, locks, RetryRollback, now, clock);
      var (tx', locks') := Retried(cfg, RetryRollback, now, clock, t.tx, locks, order, oracle);
      StartsAs(t, locks, RetryRollback, u, between, tx', locks', order, oracle)
  {
    OneJob(t, RetryRollback);
    hide CommitLoop, RollbackLoop, HasSaga, AllAsync, IsRetryTimeout, Elapsed, Released;
  }

  /** From the start of a retried pass. */
  lemma RetriedPassIsRun(cfg: Config, t: TxState, locks: LockTable, kind: Kind, now: int, clock: int, order: seq<BranchSession>, oracle: Oracle)
    returns (acts: seq<LocalAction>, t': TxState)
    requires kind.Retries() && Wanted(kind, t.tx.status)
    requires t.jobs == map[kind := NewJob(t.tx.branches)] && Enumerates(order, t.tx.branches)
    ensures
      var (tx', locks') := Retried(cfg, kind, now, clock, t.tx, locks, order, oracle);
      Performs(cfg, t, locks, acts, t', locks') && t'.tx == tx' && t'.jobs == map[] && SameBeside(t, t')
  {
    if kind == RetryRollback {
      RetriedRollbackStart(cfg, t, locks, now, clock, order, oracle);
    } else {
      RetriedCommitStart(cfg, t, locks, kind, now, clock, order, oracle);
    }
    hide Retried, Begun, Enumerates, CommitLoop, RollbackLoop;
    var start := Start(kind, now, clock);
    var (u, between) := Begun(cfg, t, locks, kind, now, clock);
    if kind !in u.jobs {
      PerformsOne(cfg, t, locks, start);
      return [start], u;
    }
    var rest;
    if kind.Commits() {
      rest, t' := CommitLoopIsRun(cfg, u, between, kind, order, oracle);
    } else {
      rest, t' := RollbackLoopIsRun(cfg, u, between, kind, order, oracle);
    }
    hide Performs;
    assert u.jobs - {kind} == map[];
    PerformsFirst(cfg, t, locks, start, rest, t', Retried(cfg, kind, now, clock, t.tx, locks, order, oracle).1);
    acts := [start] + rest;
  }

  lemma RetriedIsRun(cfg: Config, t: TxState, locks: LockTable, kind: Kind, now: int, clock: int, order: seq<BranchSession>, oracle: Oracle)
    returns (acts: seq<LocalAction>, t': TxState)
    requires kind.Retries() && t.tx.live && Wanted(kind, t.tx.status) && t.jobs == map[] && t.picked == {} && Enumerates(order, t.tx.branches)
    ensures
      var (tx', locks') := Retried(cfg, kind, now, clock, t.tx, locks, order, oracle);
      Performs(cfg, t, locks, acts, t', locks') && t'.tx == tx' && t'.jobs == map[] && SameBeside(t, t')
  {
    hide Performs;
    var locks' := Retried(cfg, kind, now, clock, t.tx, locks, order, oracle).1;
    var u := t.(picked := {kind});
    var v := t.(jobs := t.jobs[kind := NewJob(t.tx.branches)], picked := {});
    assert v.jobs == map[kind := NewJob(v.tx.branches)] && u.picked - {kind} == {} && t.picked + {kind} == {kind};
    var rest;
    rest, t' := RetriedPassIsRun(cfg, v, locks, kind, now, clock, order, oracle);
    hide Retried;
    PerformsFirst(cfg, u, locks, Find(kind), rest, t', locks');
    PerformsFirst(cfg, t, locks, Pick(kind), [Find(kind)] + rest, t', locks');
    acts := [Pick(kind)] + ([Find(kind)] + rest);
  }

  lemma TimeoutIsRun(cfg: Config, t: TxState, locks: LockTable, now: int) returns (acts: seq<LocalAction>, t': TxState)
    requires t.tx.live && t.tx.status == Begin
    ensures
      Performs(cfg, t, locks, acts, t', locks) && t'.tx == DecideTimeout(t.tx, now)
      && t'.jobs == t.jobs && t'.picked == t.picked && t'.late == t.late && t'.copies == t.copies
  {
    var u := t.(scanned := true);
    t' := ApplyOn(cfg, u, locks, Timeout(now)).0;
    assert Performs(cfg, t', locks, [], t', locks);
    PerformsFirst(cfg, u, locks, Timeout(now), [], t', locks);
    PerformsFirst(cfg, t, locks, Scan, [Timeout(now)] + [], t', locks);
    acts := [Scan] + ([Timeout(now)] + []);
  }

  // Runs of whole handlers --------------------------------------------------------------------------------

  /** The store between handlers: no pass is found or under way, and timeoutCheck was never late. */
  predicate Quiet(st: Store, s: State)
  {
    && st.locks == s.locks && st.txs.Keys == s.txs.Keys
    && forall x :: x in s.txs ==> s.txs[x].tx == st.txs[x] && s.txs[x].jobs == map[] && s.txs[x].picked == {} && !s.txs[x].late
  }

  predicate Named(st: Store)
  {
    forall x :: x in st.txs ==>
      var s := st.txs[x].session;
      Text.IsInt64(s.TransactionID) && x == Xid.GenerateXID(s.Addressing, s.TransactionID)
  }

  /** A run, and the store it has led to. */
  datatype History = History(ss: seq<State>, acts: seq<Action>)
  {
    predicate LeadsTo(cfg: Config, st: Store)
    {
      Run(cfg, ss, acts) && Quiet(st, ss[|acts|])
    }

    /** And every XID was made by `GenerateXID`. */
    predicate Traces(cfg: Config, st: Store)
    {
      LeadsTo(cfg, st) && Named(st)
    }

    /** A handler has looked x up when this was its branch set. */
    predicate HasCopy(x: string, copy: set<BranchSession>)
    {
      |acts| < |ss| && x in ss[|acts|].txs && copy in ss[|acts|].txs[x].copies
    }

    /** The branches that were registered between x's decision and the lookup before it. */
    function Missed(x: string): set<BranchSession>
    {
      if |acts| < |ss| && x in ss[|acts|].txs then ss[|acts|].txs[x].missed else {}
    }

    predicate Extends(h: History)
    {
      h.ss <= ss && h.acts <= acts
    }

    function Step(cfg: Config, a: Action): (h: History)
      requires Run(cfg, ss, acts) && Enabled(ss[|acts|], a)
      ensures Run(cfg, h.ss, h.acts) && h.Extends(this) && h.ss[|h.acts|] == Apply(cfg, ss[|acts|], a)
    {
      RunNext(cfg, ss, acts, a);
      History(ss + [Apply(cfg, ss[|acts|], a)], acts + [a])
    }
  }

  const EMPTY: History := History([INIT], [])

  function Update(st: Store, x: string, tx: Tx, locks: LockTable): Store
  {
    Store(st.txs[x := tx], locks)
  }

  lemma {:induction false} Extend(cfg: Config, h: History, x: string, las: seq<LocalAction>, t': TxState, locks': LockTable)
    returns (h': History)
    requires Run(cfg, h.ss, h.acts)
    requires var s := h.ss[|h.acts|]; x in s.txs && Performs(cfg, s.txs[x], s.locks, las, t', locks')
    ensures h'.Extends(h) && Run(cfg, h'.ss, h'.acts) && h'.ss[|h'.acts|] == State(h.ss[|h.acts|].txs[x := t'], locks')
    decreases |las|
  {
    var s := h.ss[|h.acts|];
    if las == [] {
      assert s.txs[x := t'] == s.txs;
      return h;
    }
    var s' := Apply(cfg, s, On(x, las[0]));
    h' := Extend(cfg, h.Step(cfg, On(x, las[0])), x, las[1..], t', locks');
    assert s'.txs[x := t'] == s.txs[x := t'];
  }

  lemma StillNamed(cfg: Config, st: Store, h: History, x: string, tx': Tx, locks': LockTable, h': History)
    requires h.Traces(cfg, st) && x in st.txs && h'.Extends(h) && h'.LeadsTo(cfg, Update(st, x, tx', locks'))
    ensures Named(Update(st, x, tx', locks'))
  {
    RunEvolves(cfg, h'.ss, h'.acts, |h.acts|, |h'.acts|, x);
  }

  /** A new transaction id makes a new XID. */
  lemma NewXID(st: Store, addressing: string, id: int)
    requires Named(st) && Text.IsInt64(id) && forall x :: x in st.txs ==> st.txs[x].Tid() != id
    ensures Xid.GenerateXID(addressing, id) !in st.txs
  {
    var x := Xid.GenerateXID(addressing, id);
    if x in st.txs {
      Xid.GenerateXIDInjective(addressing, id, st.txs[x].session.Addressing, st.txs[x].Tid());
    }
  }

  /** What was looked up stays looked up, and its session stays the same. */
  lemma CopyKept(cfg: Config, h: History, h': History, x: string, copy: set<BranchSession>)
    requires Run(cfg, h.ss, h.acts) && Run(cfg, h'.ss, h'.acts) && h'.Extends(h) && h.HasCopy(x, copy)
    ensures h'.HasCopy(x, copy) && h'.ss[|h'.acts|].txs[x].tx.session == h.ss[|h.acts|].txs[x].tx.session
  {
    RunEvolves(cfg, h'.ss, h'.acts, |h.acts|, |h'.acts|, x);
  }

  lemma Performed(cfg: Config, st: Store, h: History, x: string, las: seq<LocalAction>, t': TxState, locks': LockTable)
    returns (h': History)
    requires h.Traces(cfg, st) && x in st.txs && t'.jobs == map[] && t'.picked == {} && !t'.late
    requires var s := h.ss[|h.acts|]; Performs(cfg, s.txs[x], s.locks, las, t', locks')
    ensures h'.Extends(h) && h'.Traces(cfg, Update(st, x, t'.tx, locks'))
  {
    h' := Extend(cfg, h, x, las, t', locks');
    StillNamed(cfg, st, h, x, t'.tx, locks', h');
  }

  lemma BeginExtends(cfg: Config, st: Store, h: History, session: GlobalSession) returns (h': History)
    requires h.Traces(cfg, st)
    requires Text.IsInt64(session.TransactionID) && session.XID == Xid.GenerateXID(session.Addressing, session.TransactionID)
    requires forall x :: x in st.txs ==> st.txs[x].Tid() != session.TransactionID
    ensures session.XID !in st.txs
    ensures h'.Extends(h) && h'.Traces(cfg, Update(st, session.XID, Opened(session), st.locks))
  {
    NewXID(st, session.Addressing, session.TransactionID);
    h' := h.Step(cfg, BeginTx(session));
  }

  /** A step that starts no pass. */
  lemma StepExtends(cfg: Config, st: Store, h: History, x: string, a: LocalAction) returns (h': History)
    requires h.Traces(cfg, st) && x in st.txs && EnabledOn(h.ss[|h.acts|].txs[x], a)
    requires var t' := ApplyOn(cfg, h.ss[|h.acts|].txs[x], st.locks, a).0; t'.jobs == map[] && t'.picked == {} && !t'.late
    ensures
      var (t', locks') := ApplyOn(cfg, h.ss[|h.acts|].txs[x], st.locks, a);
      h'.Extends(h) && h'.Traces(cfg, Update(st, x, t'.tx, locks'))
      && h'.ss[|h'.acts|].txs[x] == t'
  {
    var (t', locks') := ApplyOn(cfg, h.ss[|h.acts|].txs[x], st.locks, a);
    h' := h.Step(cfg, On(x, a));
    StillNamed(cfg, st, h, x, t'.tx, locks', h');
  }

  lemma LookUpExtends(cfg: Config, st: Store, h: History, x: string) returns (h': History)
    requires h.Traces(cfg, st) && x in st.txs
    ensures h'.Extends(h) && h'.Traces(cfg, st) && h'.HasCopy(x, st.txs[x].branches)
  {
    h' := StepExtends(cfg, st, h, x, LookUp);
    assert Update(st, x, st.txs[x], st.locks) == st;
  }

  lemma RegisterExtends(cfg: Config, st: Store, h: History, x: string, b: BranchSession) returns (h': History)
    requires h.Traces(cfg, st) && x in st.txs && b !in st.txs[x].report
    requires b.XID == st.txs[x].session.XID && b.TransactionID == st.txs[x].Tid() && (b.Type == AT ==> b.AsyncCommit)
    ensures
      var (_, tx', locks') := Storage.Register(st.txs[x], st.locks, b);
      h'.Extends(h) && h'.Traces(cfg, Update(st, x, tx', locks'))
  {
    h' := StepExtends(cfg, st, h, x, Protocol.Register(b));
  }

  lemma ReportExtends(cfg: Config, st: Store, h: History, x: string, b: BranchSession, status: BranchStatus) returns (h': History)
    requires h.Traces(cfg, st) && x in st.txs && b in st.txs[x].report
    ensures h'.Extends(h) && h'.Traces(cfg, Update(st, x, Storage.Report(st.txs[x], b, status), st.locks))
  {
    h' := StepExtends(cfg, st, h, x, Protocol.Report(b, status));
  }

  lemma TimeoutExtends(cfg: Config, st: Store, h: History, x: string, now: int) returns (h': History)
    requires h.Traces(cfg, st) && x in st.txs && st.txs[x].live && st.txs[x].status == Begin
    ensures h'.Extends(h) && h'.Traces(cfg, Update(st, x, DecideTimeout(st.txs[x], now), st.locks))
  {
    var las, t' := TimeoutIsRun(cfg, h.ss[|h.acts|].txs[x], st.locks, now);
    h' := Performed(cfg, st, h, x, las, t', st.locks);
  }

  lemma CommitExtends(cfg: Config, st: Store, h: History, x: string, copy: set<BranchSession>, order: seq<BranchSession>, oracle: Oracle)
    returns (h': History)
    requires h.Traces(cfg, st) && x in st.txs && h.HasCopy(x, copy) && Enumerates(order, copy)
    ensures
      var (_, tx', locks') := HandleCommit(st.txs[x], st.locks, copy, order, oracle);
      h'.Extends(h) && h'.Traces(cfg, Update(st, x, tx', locks'))
  {
    var las, t' := HandleCommitIsRun(cfg, h.ss[|h.acts|].txs[x], st.locks, copy, order, oracle);
    h' := Performed(cfg, st, h, x, las, t', HandleCommit(st.txs[x], st.locks, copy, order, oracle).2);
  }

  lemma RollbackExtends(cfg: Config, st: Store, h: History, x: string, copy: set<BranchSession>, order: seq<BranchSession>, oracle: Oracle)
    returns (h': History)
    requires h.Traces(cfg, st) && x in st.txs && h.HasCopy(x, copy) && Enumerates(order, copy)
    ensures
      var (_, tx', locks') := HandleRollback(st.txs[x], st.locks, copy, order, oracle);
      h'.Extends(h) && h'.Traces(cfg, Update(st, x, tx', locks'))
  {
    var las, t' := HandleRollbackIsRun(cfg, h.ss[|h.acts|].txs[x], st.locks, copy, order, oracle);
    h' := Performed(cfg, st, h, x, las, t', HandleRollback(st.txs[x], st.locks, copy, order, oracle).2);
  }

  lemma RetryExtends(cfg: Config, st: Store, h: History, x: string, kind: Kind, now: int, clock: int, order: seq<BranchSession>, oracle: Oracle)
    returns (h': History)
    requires h.Traces(cfg, st) && x in st.txs && st.txs[x].live && Enumerates(order, st.txs[x].branches)
    requires kind.Retries() && Wanted(kind, st.txs[x].status)
    ensures
      var (tx', locks') := Retried(cfg, kind, now, clock, st.txs[x], st.locks, order, oracle);
      h'.Extends(h) && h'.Traces(cfg, Update(st, x, tx', locks'))
  {
    var las, t' := RetriedIsRun(cfg, h.ss[|h.acts|].txs[x], st.locks, kind, now, clock, order, oracle);
    h' := Performed(cfg, st, h, x, las, t', Retried(cfg, kind, now, clock, st.txs[x], st.locks, order, oracle).1);
  }

  lemma RowsCovered(cfg: Config, st: Store, h: History, k: string)
    requires h.Traces(cfg, st) && cfg.rollbackRetryTimeoutUnlockEnable && k in st.locks
    ensures exists x, b ::
        && x in st.txs && st.txs[x].Tid() == st.locks[k] && Covers(st.locks, k, b)
        && (if st.txs[x].live then b in st.txs[x].branches else b in h.Missed(x))
  {
    hide Run, Named, Covers, Quiet;
    Ends(cfg, st, h);
    var x, b := RowOwner(cfg, h.ss, h.acts, |h.acts|, k);
    TracedTx(cfg, st, h, x);
    hide BaseOk, TimelyOk, LocksOk;
    assert if st.txs[x].live then b in st.txs[x].branches else b in h.Missed(x);
  }

  lemma Ends(cfg: Config, st: Store, h: History)
    requires h.Traces(cfg, st)
    ensures |h.ss| == |h.acts| + 1 && h.ss[|h.acts|].locks == st.locks && h.ss[|h.acts|].txs.Keys == st.txs.Keys
  {
  }

  // What the answers mean -----------------------------------------------------------------------------------

  /** What the invariant says of a transaction. */
  lemma TracedTx(cfg: Config, st: Store, h: History, x: string)
    requires h.Traces(cfg, st) && x in st.txs
    ensures
      var t := h.ss[|h.acts|].txs[x];
      t.tx == st.txs[x] && BaseOk(t) && TimelyOk(t) && LocksOk(cfg, t, st.locks)
  {
    RunTx(cfg, h.ss, h.acts, |h.acts|, x);
    hide BaseOk, TimelyOk, LocksOk;
  }

  lemma {:induction false} CommitLoopFamily(tx: Tx, locks: LockTable, w: Work, order: seq<BranchSession>, retrying: bool, oracle: Oracle)
    requires FamilyOf(tx.status) == ToCommit
    ensures FamilyOf(CommitLoop(tx, locks, w, order, retrying, oracle).tx.status) == ToCommit
    decreases |order|
  {
    if order != [] {
      var n := VisitCommit(tx, locks, w, order[0], retrying, oracle(order[0]));
      if n.outcome.GoesOn? {
        CommitLoopFamily(n.tx, n.locks, n.work, order[1..], retrying, oracle);
      }
    }
  }

  lemma RollbackFamily(tx: Tx, locks: LockTable, w: Work, b: BranchSession, retrying: bool, answer: Answer)
    requires FamilyOf(tx.status) == ToRollback
    ensures FamilyOf(VisitRollback(tx, locks, w, b, retrying, answer).tx.status) == ToRollback
  {
  }

  lemma {:induction false} RollbackLoopFamily(tx: Tx, locks: LockTable, w: Work, order: seq<BranchSession>, retrying: bool, oracle: Oracle)
    requires FamilyOf(tx.status) == ToRollback
    ensures FamilyOf(RollbackLoop(tx, locks, w, order, retrying, oracle).tx.status) == ToRollback
    decreases |order|
  {
    if order != [] {
      hide VisitRollback, FamilyOf;
      RollbackFamily(tx, locks, w, order[0], retrying, oracle(order[0]));
      var n := VisitRollback(tx, locks, w, order[0], retrying, oracle(order[0]));
      if n.outcome.GoesOn? {
        RollbackLoopFamily(n.tx, n.locks, n.work, order[1..], retrying, oracle);
      }
    }
  }

  /** `Commit` tells the family of a decision that is final. An error means that the pass was cut short, and
      says nothing about the decision either. */
  lemma CommitAnswers(cfg: Config, st: Store, h: History, x: string, copy: set<BranchSession>, order: seq<BranchSession>, oracle: Oracle)
    requires h.Traces(cfg, st) && x in st.txs && h.HasCopy(x, copy) && Enumerates(order, copy)
    ensures
      var (response, tx', locks') := HandleCommit(st.txs[x], st.locks, copy, order, oracle);
      && !tx'.active && tx'.status != Begin
      && !response.RpcError? && FamilyOf(response.status) == FamilyOf(tx'.status) != Undecided
      && (st.txs[x].status == Begin ==> response.Failed? || response == Success(Committed))
  {
    hide History.Traces, CommitLoop;
    var (_, tx', locks') := HandleCommit(st.txs[x], st.locks, copy, order, oracle);
    var h' := CommitExtends(cfg, st, h, x, copy, order, oracle);
    TracedTx(cfg, st, h, x);
    TracedTx(cfg, Update(st, x, tx', locks'), h', x);
    hide KnownOk, BranchesOk, PassesOk, HistoryOk, LocksOk;
    if st.txs[x].status == Begin {
      var (_, decided, locks) := DecideCommit(st.txs[x], st.locks, copy);
      CommitLoopFamily(decided, locks, Work(copy, copy), order, false, oracle);
    }
  }

  /** Committed is answered early: an asynchronous commit leaves the transaction stored for the retry loop. */
  lemma AnsweredBeforeCarriedOut(tx: Tx, locks: LockTable, copy: set<BranchSession>, order: seq<BranchSession>, oracle: Oracle)
    requires tx.status == Begin && tx.live && AllAsync(copy)
    ensures
      var (response, tx', _) := HandleCommit(tx, locks, copy, order, oracle);
      response == Success(Committed) && tx'.live && tx'.status == AsyncCommitting && tx'.branches == tx.branches
  {
  }

  /** A commit is carried out when it returns, the transaction removed as Committed, if and only if its
      branches were not all asynchronous, none was SAGA, every one was answered PhaseTwoCommitted, and the
      copy had them all. */
  lemma CarriedOut(tx: Tx, locks: LockTable, copy: set<BranchSession>, order: seq<BranchSession>, oracle: Oracle)
    requires tx.status == Begin && tx.live && copy <= tx.branches && Enumerates(order, copy)
    ensures
      var (_, tx', _) := HandleCommit(tx, locks, copy, order, oracle);
      (!tx'.live && tx'.status == Committed) <==>
        !AllAsync(copy) && !HasSaga(copy) && (forall b :: b in copy ==> oracle(b) == Returned(PhaseTwoCommitted)) && copy == tx.branches
  {
    if !AllAsync(copy) && !HasSaga(copy) {
      var (_, decided, between) := DecideCommit(tx, locks, copy);
      FirstPass(decided, between, Work(copy, copy), order, oracle);
      LeftIsNothing(tx.branches, copy, order, oracle);
      hide CommitLoop, Uncommitted, GoesThrough;
    }
  }

  lemma LeftIsNothing(bs: set<BranchSession>, copy: set<BranchSession>, order: seq<BranchSession>, oracle: Oracle)
    requires copy <= bs && Enumerates(order, copy)
    ensures (GoesThrough(order, oracle) && Uncommitted(bs, order, oracle) == {}) <==>
        (forall b :: b in copy ==> oracle(b) == Returned(PhaseTwoCommitted)) && copy == bs
  {
    if Uncommitted(bs, order, oracle) == {} {
      forall b | b in bs ensures b in copy && oracle(b) == Returned(PhaseTwoCommitted) {
        assert b !in Uncommitted(bs, order, oracle);
      }
    }
  }

  /** A commit is stranded, stored in Committing for no loop to find, if and only if its branches were not all
      asynchronous, and one was SAGA, or the pass went through although a branch was given up or missed. */
  lemma Stranded(tx: Tx, locks: LockTable, copy: set<BranchSession>, order: seq<BranchSession>, oracle: Oracle)
    requires tx.status == Begin && tx.live && copy <= tx.branches && Enumerates(order, copy)
    ensures
      var (_, tx', _) := HandleCommit(tx, locks, copy, order, oracle);
      (tx'.live && tx'.status == Committing) <==>
        !AllAsync(copy)
        && (HasSaga(copy)
            || (GoesThrough(order, oracle) && (copy != tx.branches || exists b :: b in copy && oracle(b) != Returned(PhaseTwoCommitted))))
  {
    if !AllAsync(copy) && !HasSaga(copy) {
      var (_, decided, between) := DecideCommit(tx, locks, copy);
      FirstPass(decided, between, Work(copy, copy), order, oracle);
      LeftIsNothing(tx.branches, copy, order, oracle);
      hide CommitLoop, Uncommitted, GoesThrough;
    }
  }

  /** `Rollback` answers RolledBack to the decision, when nothing comes in between, if and only if no branch
      was SAGA, every one was reported failed or is answered PhaseTwoRolledBack, and the copy had them all. */
  lemma UndoneNow(tx: Tx, locks: LockTable, copy: set<BranchSession>, order: seq<BranchSession>, oracle: Oracle)
    requires tx.status == Begin && tx.live && copy <= tx.branches && Enumerates(order, copy)
    ensures HandleRollback(tx, locks, copy, order, oracle).0 == Success(RolledBack) <==>
        !HasSaga(copy) && copy == tx.branches && forall b :: b in copy ==> NeedsNoCall(tx, b) || oracle(b) == Returned(PhaseTwoRolledBack)
  {
    if !HasSaga(copy) {
      var decided := DecideRollback(tx).1;
      FirstRollback(decided, locks, Work(copy, copy), order, oracle);
      hide RollbackLoop;
    }
  }

  /** `Rollback` answers with the status the session has then; from Begin an answer of RolledBack is an
      outcome: the session is gone. */
  lemma RollbackAnswers(cfg: Config, st: Store, h: History, x: string, copy: set<BranchSession>, order: seq<BranchSession>, oracle: Oracle)
    requires h.Traces(cfg, st) && x in st.txs && h.HasCopy(x, copy) && Enumerates(order, copy)
    ensures
      var (response, tx', locks') := HandleRollback(st.txs[x], st.locks, copy, order, oracle);
      && !tx'.active && tx'.status != Begin && !response.Failed?
      && (response.Success? ==> response.status == tx'.status)
      && (st.txs[x].status == Begin ==> FamilyOf(tx'.status) == ToRollback)
      && (st.txs[x].status != Begin ==> response.Success? && tx'.status == st.txs[x].status)
      && (response == Success(RolledBack) ==> !tx'.live)
  {
    hide History.Traces, RollbackLoop;
    var (_, tx', locks') := HandleRollback(st.txs[x], st.locks, copy, order, oracle);
    var h' := RollbackExtends(cfg, st, h, x, copy, order, oracle);
    TracedTx(cfg, st, h, x);
    TracedTx(cfg, Update(st, x, tx', locks'), h', x);
    hide KnownOk, BranchesOk, PassesOk, HistoryOk, LocksOk;
    if st.txs[x].status == Begin {
      var decided := DecideRollback(st.txs[x]).1;
      RollbackLoopFamily(decided, st.locks, Work(copy, copy), order, false, oracle);
    }
  }
}
