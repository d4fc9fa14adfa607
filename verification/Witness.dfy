/** Runs that show what the conditions in Runs.dfy are for. */
module Witness {
  import opened Apis
  import opened Storage
  import opened Protocol
  import opened Runs
  import opened Outcomes

  lemma Extend(cfg: Config, ss: seq<State>, acts: seq<Action>, a: Action) returns (ss': seq<State>, acts': seq<Action>)
    requires Run(cfg, ss, acts) && Enabled(ss[|acts|], a)
    ensures Run(cfg, ss', acts') && ss'[|acts'|] == Apply(cfg, ss[|acts|], a)
    ensures |acts'| == |acts| + 1 && ss <= ss' && acts <= acts' && acts'[|acts|] == a
  {
    RunNext(cfg, ss, acts, a);
    hide Run, Enabled, Apply;
    ss', acts' := ss + [Apply(cfg, ss[|acts|], a)], acts + [a];
  }

  /** The coordinator with one transaction. */
  function Single(t: TxState, locks: LockTable): State
  {
    State(map[t.tx.session.XID := t], locks)
  }

  lemma First(cfg: Config, session: GlobalSession) returns (ss: seq<State>, acts: seq<Action>)
    ensures Run(cfg, ss, acts) && ss[|acts|] == Single(Unknown(session), map[])
  {
    ss, acts := Extend(cfg, [INIT], [], BeginTx(session));
  }

  lemma OneStep(cfg: Config, t: TxState, locks: LockTable, a: LocalAction, t': TxState, locks': LockTable)
    requires EnabledOn(t, a) && ApplyOn(cfg, t, locks, a) == (t', locks') && t'.tx.session == t.tx.session
    ensures Enabled(Single(t, locks), On(t.tx.session.XID, a))
    ensures Apply(cfg, Single(t, locks), On(t.tx.session.XID, a)) == Single(t', locks')
  {
    hide ApplyOn, EnabledOn;
    var x := t.tx.session.XID;
    assert map[x := t][x := t'] == map[x := t'];
  }

  /** One step of the transaction. */
  lemma Then(cfg: Config, ss: seq<State>, acts: seq<Action>, t: TxState, locks: LockTable, a: LocalAction, t': TxState, locks': LockTable)
    returns (ss': seq<State>, acts': seq<Action>)
    requires Run(cfg, ss, acts) && ss[|acts|] == Single(t, locks) && EnabledOn(t, a)
    requires ApplyOn(cfg, t, locks, a) == (t', locks') && t'.tx.session == t.tx.session
    ensures Run(cfg, ss', acts') && ss'[|acts'|] == Single(t', locks')
    ensures |acts'| == |acts| + 1 && ss <= ss' && acts <= acts'
  {
    OneStep(cfg, t, locks, a, t', locks');
    ss', acts' := Extend(cfg, ss, acts, On(t.tx.session.XID, a));
  }

  predicate BranchOf(b: BranchSession, session: GlobalSession)
  {
    b.XID == session.XID && b.TransactionID == session.TransactionID
  }

  function WithBranch(t: TxState, b: BranchSession): TxState
  {
    t.(tx := t.tx.(branches := t.tx.branches + {b}, report := t.tx.report[b := Registered]))
  }

  /** A branch registered between the lookup and the decision of a commit: the commit is decided and carried
      out without it. It stays stored in `Committing`, which no loop looks for, and keeps its rows. */
  lemma BranchMissed(cfg: Config, session: GlobalSession, b0: BranchSession, b1: BranchSession) returns (ss: seq<State>, acts: seq<Action>)
    requires BranchOf(b0, session) && b0.Type == TCC && !b0.AsyncCommit && BranchClaims(b0) == {}
    requires BranchOf(b1, session) && b1.Type == AT && b1.AsyncCommit
    ensures Run(cfg, ss, acts) && session.XID in ss[|acts|].txs
    ensures
      var t := ss[|acts|].txs[session.XID];
      && t.tx.live && t.tx.status == Committing && t.jobs == map[] && !t.late
      && t.tx.branches == {b1} == t.missed
      && HoldsRows(ss[|acts|].locks, b1)
  {
    var x, none: LockTable := session.XID, map[];
    var t0 := Unknown(session);
    ss, acts := First(cfg, session);
    hide Run;
    var t1 := WithBranch(t0, b0);
    ss, acts := Then(cfg, ss, acts, t0, none, Register(b0), t1, none);
    var t2 := t1.(copies := {{b0}});
    assert t1.tx.branches == {b0} && t1.copies + {t1.tx.branches} == {{b0}};
    ss, acts := Then(cfg, ss, acts, t1, none, LookUp, t2, none);
    var t3, locks := WithBranch(t2, b1), Granted(none, BranchClaims(b1), session.TransactionID);
    ss, acts := Then(cfg, ss, acts, t2, none, Register(b1), t3, locks);
    GrantedHolds(b1);
    ss, acts := MissedByCommit(cfg, ss, acts, session, b0, b1, t3, locks);
  }

  /** The rows that b1 was granted. */
  predicate HoldsRows(locks: LockTable, b: BranchSession)
  {
    forall c :: c in BranchClaims(b) ==> c.0 in locks && locks[c.0] == b.TransactionID
  }

  lemma GrantedHolds(b: BranchSession)
    ensures HoldsRows(Granted(map[], BranchClaims(b), b.TransactionID), b)
  {
    forall c | c in BranchClaims(b) ensures c.0 in Keys(BranchClaims(b)) {
    }
  }

  lemma NothingReleased(locks: LockTable, b: BranchSession)
    requires BranchClaims(b) == {}
    ensures Released(locks, ClaimsOf({b})) == locks && Released(locks, BranchClaims(b)) == locks
  {
    assert ClaimsOf({b}) == {};
  }

  lemma MissedByCommit(cfg: Config, ss: seq<State>, acts: seq<Action>, session: GlobalSession, b0: BranchSession, b1: BranchSession,
                       t: TxState, locks: LockTable)
    returns (ss': seq<State>, acts': seq<Action>)
    requires BranchOf(b0, session) && b0.Type == TCC && !b0.AsyncCommit && BranchClaims(b0) == {} && b0 != b1
    requires t == WithBranch(WithBranch(Unknown(session), b0), b1).(copies := {{b0}})
    requires Run(cfg, ss, acts) && ss[|acts|] == Single(t, locks)
    ensures Run(cfg, ss', acts') && session.XID in ss'[|acts'|].txs && ss'[|acts'|].locks == locks
    ensures
      var t' := ss'[|acts'|].txs[session.XID];
      t'.tx.live && t'.tx.status == Committing && t'.jobs == map[] && !t'.late && t'.tx.branches == {b1} == t'.missed
  {
    hide Run;
    NothingReleased(locks, b0);
    var decided := t.tx.(active := false, status := Committing);
    var t1 := t.(tx := decided, jobs := map[SyncCommit := NewJob({b0})], missed := {b1}, committing := true);
    assert t.tx.branches - {b0} == {b1};
    ss', acts' := Then(cfg, ss, acts, t, locks, Commit({b0}), t1, locks);
    var t2 := t1.(jobs := map[SyncCommit := Job(Work({b0}, {b0}), true)]);
    assert b0 in {b0} && !AllAsync({b0}) && !HasSaga({b0});
    assert t1.jobs[SyncCommit := Job(Work({b0}, {b0}), true)] == t2.jobs;
    ss', acts' := Then(cfg, ss', acts', t1, locks, Start(SyncCommit, 0, 0), t2, locks);
    ss', acts' := WithoutMissed(cfg, ss', acts', b0, b1, t2, locks);
  }

  /** The pass commits what its copy has, looks again, and gives up. */
  lemma WithoutMissed(cfg: Config, ss: seq<State>, acts: seq<Action>, b0: BranchSession, b1: BranchSession, t2: TxState, locks: LockTable)
    returns (ss': seq<State>, acts': seq<Action>)
    requires Run(cfg, ss, acts) && ss[|acts|] == Single(t2, locks) && b0 != b1 && BranchClaims(b0) == {}
    requires t2.tx.live && t2.tx.status == Committing && t2.tx.branches == {b0, b1} && !t2.late && t2.missed == {b1} && t2.committed == {}
    requires t2.jobs == map[SyncCommit := Job(Work({b0}, {b0}), true)]
    ensures Run(cfg, ss', acts') && t2.tx.session.XID in ss'[|acts'|].txs && ss'[|acts'|].locks == locks
    ensures
      var t' := ss'[|acts'|].txs[t2.tx.session.XID];
      t'.tx.live && t'.tx.status == Committing && t'.jobs == map[] && !t'.late && t'.tx.branches == {b1} == t'.missed
  {
    NothingReleased(locks, b0);
    hide Run, Released, Begun;
    var t3 := t2.(tx := t2.tx.(branches := {b1}), jobs := map[SyncCommit := Job(Work({}, {}), true)], committed := {b0});
    assert t2.tx.branches - {b0} == {b1} && {b0} - {b0} == {} && t2.committed + {b0} == {b0};
    assert t2.jobs[SyncCommit := Job(Work({}, {}), true)] == t3.jobs;
    ss', acts' := Then(cfg, ss, acts, t2, locks, Visit(SyncCommit, b0, Returned(PhaseTwoCommitted)), t3, locks);
    assert t3.jobs - {SyncCommit} == map[];
    ss', acts' := Then(cfg, ss', acts', t3, locks, Finish(SyncCommit), t3.(jobs := map[]), locks);
  }

  /** A session found by timeoutCheck, then committed, then timed out: the decision is turned. */
  lemma DecisionTurned(cfg: Config, session: GlobalSession, now: int) returns (ss: seq<State>, acts: seq<Action>)
    requires Elapsed(now, session.BeginTime, session.Timeout)
    ensures Run(cfg, ss, acts) && |acts| > 0 && session.XID in ss[|acts| - 1].txs && session.XID in ss[|acts|].txs
    ensures ss[|acts| - 1].txs[session.XID].tx.status == Committing
    ensures ss[|acts|].txs[session.XID].tx.status == TimeoutRollingBack && ss[|acts|].txs[session.XID].late
  {
    var none: LockTable := map[];
    var t0 := Unknown(session);
    ss, acts := First(cfg, session);
    hide Run, Elapsed;
    var t1 := t0.(scanned := true);
    ss, acts := Then(cfg, ss, acts, t0, none, Scan, t1, none);
    var t2 := t1.(copies := {{}});
    assert t1.copies + {t1.tx.branches} == {{}};
    ss, acts := Then(cfg, ss, acts, t1, none, LookUp, t2, none);
    var decided := t2.tx.(active := false, status := Committing);
    var t3 := t2.(tx := decided, jobs := map[SyncCommit := NewJob({})], committing := true);
    assert Released(none, ClaimsOf({})) == none && t2.tx.branches - {} == {};
    ss, acts := Then(cfg, ss, acts, t2, none, Commit({}), t3, none);
    ghost var before := ss;
    var t4 := t3.(tx := decided.(status := TimeoutRollingBack), scanned := false, late := true);
    assert TooLate(t3.tx, now);
    ss, acts := Then(cfg, ss, acts, t3, none, Timeout(now), t4, none);
    assert ss[|acts| - 1] == before[|acts| - 1];
  }

  /** A session removed as RollbackFailed by one pass, while a retry loop has found it but not its branches:
      that loop's pass, with no branch to call for, writes RolledBack onto the removed session. */
  lemma RemovedThenRolledBack(cfg: Config, session: GlobalSession, b: BranchSession) returns (ss: seq<State>, acts: seq<Action>)
    requires cfg.maxRollbackRetryTimeout < 0 && BranchOf(b, session) && b.Type == TCC && BranchClaims(b) == {}
    ensures Run(cfg, ss, acts) && session.XID in ss[|acts|].txs
    ensures
      var t := ss[|acts|].txs[session.XID];
      !t.tx.live && t.tx.status == RolledBack && !t.late && b in t.tx.report && !t.Settled(b)
  {
    var none: LockTable := map[];
    var t0 := Unknown(session);
    ss, acts := First(cfg, session);
    hide Run;
    var t1 := WithBranch(t0, b);
    ss, acts := Then(cfg, ss, acts, t0, none, Register(b), t1, none);
    var t2 := t1.(copies := {{b}});
    assert t1.tx.branches == {b} && t1.copies + {t1.tx.branches} == {{b}};
    ss, acts := Then(cfg, ss, acts, t1, none, LookUp, t2, none);
    var t3 := t2.(tx := t2.tx.(active := false, status := RollingBack), jobs := map[SyncRollback := NewJob({b})]);
    assert t2.tx.branches - {b} == {};
    ss, acts := Then(cfg, ss, acts, t2, none, Rollback({b}), t3, none);
    var t4 := t3.(jobs := map[SyncRollback := Job(Work({b}, {b}), true)]);
    assert b in {b} && !HasSaga({b}) && t3.jobs[SyncRollback := Job(Work({b}, {b}), true)] == t4.jobs;
    ss, acts := Then(cfg, ss, acts, t3, none, Start(SyncRollback, 0, 0), t4, none);
    ss, acts := RemovedMeanwhile(cfg, ss, acts, session, b, t4);
  }

  lemma RemovedMeanwhile(cfg: Config, ss: seq<State>, acts: seq<Action>, session: GlobalSession, b: BranchSession, t: TxState)
    returns (ss': seq<State>, acts': seq<Action>)
    requires cfg.maxRollbackRetryTimeout < 0 && BranchClaims(b) == {}
    requires Run(cfg, ss, acts) && ss[|acts|] == Single(t, map[]) && t.tx.session == session && t.tx.live && t.tx.status == RollingBack
    requires t.jobs == map[SyncRollback := Job(Work({b}, {b}), true)] && t.picked == {} && !t.late && t.undone == t.failed == {}
    requires b in t.tx.report && t.tx.report[b] == Registered
    ensures Run(cfg, ss', acts') && session.XID in ss'[|acts'|].txs
    ensures
      var t' := ss'[|acts'|].txs[session.XID];
      !t'.tx.live && t'.tx.status == RolledBack && !t'.late && b in t'.tx.report && !t'.Settled(b)
  {
    hide Run;
    var t1 := t.(picked := {RetryRollback});
    ss', acts' := PickedMeanwhile(cfg, ss, acts, t, t1);
    var t2 := t1.(tx := Removed(t.tx.(status := RollbackFailed)), jobs := map[]);
    FailsForGood(t1, b, t2);
    hide Visited, Begun, Ended;
    ss', acts' := Then(cfg, ss', acts', t1, map[], Visit(SyncRollback, b, Returned(PhaseTwoRollbackFailedCanNotRetry)), t2, map[]);
    ss', acts' := WithoutBranches(cfg, ss', acts', b, t2);
  }

  lemma FailsForGood(t: TxState, b: BranchSession, t': TxState)
    requires t.tx.live && t.tx.status == RollingBack && BranchClaims(b) == {}
    requires t.jobs == map[SyncRollback := Job(Work({b}, {b}), true)]
    requires t' == t.(tx := Removed(t.tx.(status := RollbackFailed)), jobs := map[])
    ensures Visited(t, map[], SyncRollback, b, Returned(PhaseTwoRollbackFailedCanNotRetry)) == (t', map[])
  {
    hide AnswerRollback, VisitCommit;
    assert t.jobs[SyncRollback].work == Work({b}, {b});
    AnswerFails(t.tx, b);
    assert t.jobs - {SyncRollback} == map[];
  }

  lemma AnswerFails(tx: Tx, b: BranchSession)
    requires tx.live && tx.status == RollingBack && BranchClaims(b) == {}
    ensures
      var w, failed := Work({b}, {b}), Removed(tx.(status := RollbackFailed));
      AnswerRollback(tx, map[], w, b, false, Returned(PhaseTwoRollbackFailedCanNotRetry)) == Next(failed, map[], w, Returns(false, true))
  {
    NothingReleased(map[], b);
    hide Released, Settle, GiveUp;
  }

  lemma PickedMeanwhile(cfg: Config, ss: seq<State>, acts: seq<Action>, t: TxState, t1: TxState) returns (ss': seq<State>, acts': seq<Action>)
    requires Run(cfg, ss, acts) && ss[|acts|] == Single(t, map[]) && t.tx.live && t.tx.status == RollingBack
    requires RetryRollback !in t.jobs && t.picked == {} && t1 == t.(picked := {RetryRollback})
    ensures Run(cfg, ss', acts') && ss'[|acts'|] == Single(t1, map[])
  {
    hide Run;
    assert t.picked + {RetryRollback} == {RetryRollback};
    ss', acts' := Then(cfg, ss, acts, t, map[], Pick(RetryRollback), t1, map[]);
  }

  lemma WithoutBranches(cfg: Config, ss: seq<State>, acts: seq<Action>, b: BranchSession, t2: TxState)
    returns (ss': seq<State>, acts': seq<Action>)
    requires cfg.maxRollbackRetryTimeout < 0
    requires Run(cfg, ss, acts) && ss[|acts|] == Single(t2, map[]) && !t2.tx.live && t2.tx.branches == {} && t2.tx.status == RollbackFailed
    requires t2.jobs == map[] && t2.picked == {RetryRollback} && !t2.late && t2.undone == t2.failed == {} && b in t2.tx.report
    ensures Run(cfg, ss', acts') && t2.tx.session.XID in ss'[|acts'|].txs
    ensures
      var t' := ss'[|acts'|].txs[t2.tx.session.XID];
      !t'.tx.live && t'.tx.status == RolledBack && !t'.late && b in t'.tx.report && !t'.Settled(b)
  {
    hide Run, Released, Ended, Visited;
    var none: LockTable := map[];
    var t3 := t2.(jobs := map[RetryRollback := NewJob({})], picked := {});
    assert t2.picked - {RetryRollback} == {};
    ss', acts' := Then(cfg, ss, acts, t2, none, Find(RetryRollback), t3, none);
    assert t3.jobs[RetryRollback := Job(Work({}, {}), true)] == map[RetryRollback := Job(Work({}, {}), true)];
    var t4 := t3.(jobs := map[RetryRollback := Job(Work({}, {}), true)]);
    ss', acts' := Then(cfg, ss', acts', t3, none, Start(RetryRollback, 0, 0), t4, none);
    ss', acts' := WithNothingToDo(cfg, ss', acts', t4);
  }

  lemma WithNothingToDo(cfg: Config, ss: seq<State>, acts: seq<Action>, t: TxState) returns (ss': seq<State>, acts': seq<Action>)
    requires Run(cfg, ss, acts) && ss[|acts|] == Single(t, map[]) && !t.tx.live && t.tx.status == RollbackFailed
    requires t.jobs == map[RetryRollback := Job(Work({}, {}), true)]
    ensures Run(cfg, ss', acts') && ss'[|acts'|] == Single(t.(tx := t.tx.(status := RolledBack), jobs := map[]), map[])
  {
    hide Run, Released, Begun;
    assert t.jobs - {RetryRollback} == map[];
    ss', acts' := Then(cfg, ss, acts, t, map[], Finish(RetryRollback), t.(tx := t.tx.(status := RolledBack), jobs := map[]), map[]);
  }

  // Outcomes against a branch ----------------------------------------------------------------------------

  /** A branch that keeps these runs short. */
  predicate Plain(b: BranchSession, session: GlobalSession)
  {
    BranchOf(b, session) && b.Type == TCC && !b.AsyncCommit && BranchClaims(b) == {}
  }

  /** Scanned by timeoutCheck while open, then committed, with b to visit. */
  function CommitUnderWay(session: GlobalSession, b: BranchSession): TxState
  {
    var t := WithBranch(Unknown(session), b).(scanned := true, copies := {{b}}, committing := true);
    t.(tx := t.tx.(active := false, status := Committing), jobs := map[SyncCommit := Job(Work({b}, {b}), true)])
  }

  lemma ScannedThenCommitted(cfg: Config, session: GlobalSession, b: BranchSession) returns (ss: seq<State>, acts: seq<Action>)
    requires Plain(b, session)
    ensures Run(cfg, ss, acts) && ss[|acts|] == Single(CommitUnderWay(session, b), map[])
  {
    var none: LockTable := map[];
    var t0 := Unknown(session);
    NothingReleased(none, b);
    ss, acts := First(cfg, session);
    hide Run, Released;
    var t1 := WithBranch(t0, b);
    assert t1.tx.branches == {b};
    ss, acts := Then(cfg, ss, acts, t0, none, Register(b), t1, none);
    var t2 := t1.(scanned := true);
    ss, acts := Then(cfg, ss, acts, t1, none, Scan, t2, none);
    var t3 := t2.(copies := {{b}});
    assert t2.copies + {t2.tx.branches} == {{b}};
    ss, acts := Then(cfg, ss, acts, t2, none, LookUp, t3, none);
    ss, acts := DecidedToCommit(cfg, ss, acts, t3, session, b);
  }

  lemma DecidedToCommit(cfg: Config, ss: seq<State>, acts: seq<Action>, t: TxState, session: GlobalSession, b: BranchSession)
    returns (ss': seq<State>, acts': seq<Action>)
    requires Plain(b, session) && t == WithBranch(Unknown(session), b).(scanned := true, copies := {{b}})
    requires Run(cfg, ss, acts) && ss[|acts|] == Single(t, map[])
    ensures Run(cfg, ss', acts') && ss'[|acts'|] == Single(CommitUnderWay(session, b), map[])
  {
    var none: LockTable := map[];
    NothingReleased(none, b);
    hide Run, Released;
    assert t.tx.branches == {b};
    var t1 := t.(tx := t.tx.(active := false, status := Committing), jobs := map[SyncCommit := NewJob({b})], committing := true);
    ss', acts' := Then(cfg, ss, acts, t, none, Commit({b}), t1, none);
    assert b in {b} && !AllAsync({b}) && !HasSaga({b});
    assert t1.jobs[SyncCommit := Job(Work({b}, {b}), true)] == map[SyncCommit := Job(Work({b}, {b}), true)];
    ss', acts' := Then(cfg, ss', acts', t1, none, Start(SyncCommit, 0, 0), CommitUnderWay(session, b), none);
  }

  function TimedOut(t: TxState): TxState
  {
    t.(tx := t.tx.(status := TimeoutRollingBack), scanned := false, late := true)
  }

  /** timeoutCheck writes over the decision. */
  lemma WrittenTooLate(cfg: Config, ss: seq<State>, acts: seq<Action>, t: TxState, now: int) returns (ss': seq<State>, acts': seq<Action>)
    requires Run(cfg, ss, acts) && ss[|acts|] == Single(t, map[]) && t.scanned && !t.tx.active
    requires Elapsed(now, t.tx.session.BeginTime, t.tx.session.Timeout) && FamilyOf(t.tx.status) == ToCommit
    ensures Run(cfg, ss', acts') && ss'[|acts'|] == Single(TimedOut(t), map[])
  {
    hide Run, Elapsed;
    ss', acts' := Then(cfg, ss, acts, t, map[], Timeout(now), TimedOut(t), map[]);
  }

  /** A retry of the rollback is found and starts. */
  function Retrying(t: TxState): TxState
  {
    t.(jobs := t.jobs[RetryRollback := Job(Work(t.tx.branches, t.tx.branches), true)])
  }

  lemma RollbackStarts(cfg: Config, ss: seq<State>, acts: seq<Action>, t: TxState) returns (ss': seq<State>, acts': seq<Action>)
    requires cfg.maxRollbackRetryTimeout < 0 && !HasSaga(t.tx.branches)
    requires Run(cfg, ss, acts) && ss[|acts|] == Single(t, map[]) && t.tx.live && t.tx.status == TimeoutRollingBack
    requires RetryRollback !in t.jobs && RetryRollback !in t.picked
    ensures Run(cfg, ss', acts') && ss'[|acts'|] == Single(Retrying(t), map[])
  {
    var none: LockTable := map[];
    hide Run, Released, HasSaga, Elapsed;
    var t1 := t.(picked := t.picked + {RetryRollback});
    ss', acts' := Then(cfg, ss, acts, t, none, Pick(RetryRollback), t1, none);
    var t2 := t.(jobs := t.jobs[RetryRollback := NewJob(t.tx.branches)]);
    assert t1.picked - {RetryRollback} == t.picked;
    ss', acts' := Then(cfg, ss', acts', t1, none, Find(RetryRollback), t2, none);
    assert t2.jobs[RetryRollback := Job(Work(t.tx.branches, t.tx.branches), true)] == Retrying(t).jobs;
    ss', acts' := Then(cfg, ss', acts', t2, none, Start(RetryRollback, 0, 0), Retrying(t), none);
  }

  lemma RunLength(cfg: Config, ss: seq<State>, acts: seq<Action>)
    requires Run(cfg, ss, acts)
    ensures |ss| == |acts| + 1
  {
  }

  /** A pass ends on a stored session without branches. */
  lemma PassEnds(cfg: Config, ss: seq<State>, acts: seq<Action>, t: TxState, kind: Kind, status: GlobalStatus)
    returns (ss': seq<State>, acts': seq<Action>)
    requires Run(cfg, ss, acts) && ss[|acts|] == Single(t, map[]) && t.tx.live && t.tx.branches == {}
    requires kind in t.jobs && t.jobs[kind] == Job(Work({}, {}), true)
    requires t.tx.status == TimeoutRollingBack && status == if kind.Commits() then Committed else TimeoutRolledBack
    ensures Run(cfg, ss', acts') && ss'[|acts'|] == Single(t.(tx := Removed(t.tx.(status := status)), jobs := t.jobs - {kind}), map[])
    ensures RemovesAsDone(ss', acts', |acts|, t.tx.session.XID) && |acts'| == |acts| + 1
  {
    hide Run, Begun, Visited;
    var none: LockTable := map[];
    assert ClaimsOf({}) == {} && Released(none, {}) == none;
    hide Released;
    ss', acts' := Then(cfg, ss, acts, t, none, Finish(kind), t.(tx := Removed(t.tx.(status := status)), jobs := t.jobs - {kind}), none);
    assert ss'[|acts|] == ss[|acts|] by { RunLength(cfg, ss, acts); }
    RunLength(cfg, ss', acts');
  }

  /** A visit whose answer settles the only branch. */
  function SettledBy(t: TxState, kind: Kind, b: BranchSession): TxState
  {
    t.(tx := t.tx.(branches := t.tx.branches - {b}), jobs := t.jobs[kind := Job(Work({}, {}), true)],
       committed := if kind.Commits() then t.committed + {b} else t.committed,
       undone := if kind.Commits() then t.undone else t.undone + {b})
  }

  lemma Answered(cfg: Config, ss: seq<State>, acts: seq<Action>, t: TxState, kind: Kind, b: BranchSession)
    returns (ss': seq<State>, acts': seq<Action>)
    requires Run(cfg, ss, acts) && ss[|acts|] == Single(t, map[]) && t.tx.live && BranchClaims(b) == {}
    requires kind in t.jobs && t.jobs[kind] == Job(Work({b}, {b}), true)
    ensures Run(cfg, ss', acts') && ss'[|acts'|] == Single(SettledBy(t, kind, b), map[])
  {
    var none: LockTable := map[];
    var answer := Returned(if kind.Commits() then PhaseTwoCommitted else PhaseTwoRolledBack);
    AnsweredState(t, kind, b, answer);
    hide Run, Begun, Ended, Visited;
    ss', acts' := Then(cfg, ss, acts, t, none, Visit(kind, b, answer), SettledBy(t, kind, b), none);
  }

  lemma AnsweredState(t: TxState, kind: Kind, b: BranchSession, answer: Answer)
    requires t.tx.live && BranchClaims(b) == {} && kind in t.jobs && t.jobs[kind] == Job(Work({b}, {b}), true)
    requires answer == Returned(if kind.Commits() then PhaseTwoCommitted else PhaseTwoRolledBack)
    ensures Visited(t, map[], kind, b, answer) == (SettledBy(t, kind, b), map[])
  {
    NothingReleased(map[], b);
    var none: set<BranchSession> := {};
    assert {b} - {b} == none;
    hide Released, GiveUp, Conclude, Skip, IsTimeoutStatus;
  }

  /** Committed by `branchCommit`, and removed as TimeoutRolledBack. */
  lemma CommittedThenRolledBack(cfg: Config, session: GlobalSession, b: BranchSession, now: int) returns (ss: seq<State>, acts: seq<Action>)
    requires Plain(b, session) && cfg.maxRollbackRetryTimeout < 0 && Elapsed(now, session.BeginTime, session.Timeout)
    ensures Run(cfg, ss, acts) && |acts| > 0 && RemovesAsDone(ss, acts, |acts| - 1, session.XID)
    ensures
      var t := ss[|acts|].txs[session.XID];
      t.tx.status == TimeoutRolledBack && b in t.tx.report && b in t.committed && !t.Settled(b)
  {
    ss, acts := ScannedThenCommitted(cfg, session, b);
    hide Run, Elapsed;
    var t := CommitUnderWay(session, b);
    ss, acts := WrittenTooLate(cfg, ss, acts, t, now);
    t := TimedOut(t);
    ss, acts := Answered(cfg, ss, acts, t, SyncCommit, b);
    t := SettledBy(t, SyncCommit, b);
    assert t.tx.branches == {};
    ss, acts := RollbackStarts(cfg, ss, acts, t);
    ss, acts := PassEnds(cfg, ss, acts, Retrying(t), RetryRollback, TimeoutRolledBack);
  }

  /** Rolled back by `branchRollback`, and removed as Committed. */
  lemma RolledBackThenCommitted(cfg: Config, session: GlobalSession, b: BranchSession, now: int) returns (ss: seq<State>, acts: seq<Action>)
    requires Plain(b, session) && cfg.maxRollbackRetryTimeout < 0 && cfg.maxCommitRetryTimeout < 0
    requires Elapsed(now, session.BeginTime, session.Timeout)
    ensures Run(cfg, ss, acts) && |acts| > 0 && RemovesAsDone(ss, acts, |acts| - 1, session.XID)
    ensures
      var t := ss[|acts|].txs[session.XID];
      t.tx.status == Committed && b in t.tx.report && b in t.undone && b !in t.committed
  {
    ss, acts := ScannedThenCommitted(cfg, session, b);
    hide Run, Elapsed;
    var t := CommitUnderWay(session, b);
    ss, acts := LeftToRetry(cfg, ss, acts, t, b);
    t := t.(tx := t.tx.(status := CommitRetrying), jobs := map[], picked := {RetryCommit});
    ss, acts := WrittenTooLate(cfg, ss, acts, t, now);
    t := TimedOut(t);
    assert t.tx.branches == {b};
    ss, acts := RollbackStarts(cfg, ss, acts, t);
    t := Retrying(t);
    ss, acts := Answered(cfg, ss, acts, t, RetryRollback, b);
    t := SettledBy(t, RetryRollback, b);
    assert t.tx.branches == {};
    ss, acts := CommitStarts(cfg, ss, acts, t);
    t := t.(jobs := t.jobs[RetryCommit := Job(Work({}, {}), true)], picked := {});
    ss, acts := PassEnds(cfg, ss, acts, t, RetryCommit, Committed);
  }

  lemma LeftToRetry(cfg: Config, ss: seq<State>, acts: seq<Action>, t: TxState, b: BranchSession) returns (ss': seq<State>, acts': seq<Action>)
    requires Run(cfg, ss, acts) && ss[|acts|] == Single(t, map[]) && t.tx.live && t.picked == {}
    requires t.jobs == map[SyncCommit := Job(Work({b}, {b}), true)]
    ensures Run(cfg, ss', acts')
    ensures ss'[|acts'|] == Single(t.(tx := t.tx.(status := CommitRetrying), jobs := map[], picked := {RetryCommit}), map[])
  {
    hide Run, Released, Begun, Ended, AnswerRollback;
    var none: LockTable := map[];
    var t1 := t.(tx := t.tx.(status := CommitRetrying), jobs := map[]);
    assert t.jobs - {SyncCommit} == map[] && t.(committed := t.committed) == t;
    ss', acts' := Then(cfg, ss, acts, t, none, Visit(SyncCommit, b, CallError), t1, none);
    assert t1.picked + {RetryCommit} == {RetryCommit};
    ss', acts' := Then(cfg, ss', acts', t1, none, Pick(RetryCommit), t1.(picked := {RetryCommit}), none);
  }

  lemma CommitStarts(cfg: Config, ss: seq<State>, acts: seq<Action>, t: TxState) returns (ss': seq<State>, acts': seq<Action>)
    requires cfg.maxCommitRetryTimeout < 0 && t.tx.branches == {} && t.picked == {RetryCommit}
    requires Run(cfg, ss, acts) && ss[|acts|] == Single(t, map[])
    ensures Run(cfg, ss', acts')
    ensures ss'[|acts'|] == Single(t.(jobs := t.jobs[RetryCommit := Job(Work({}, {}), true)], picked := {}), map[])
  {
    hide Run, Released, Visited, Ended, Elapsed;
    var none: LockTable := map[];
    var t1 := t.(jobs := t.jobs[RetryCommit := NewJob({})], picked := {});
    assert t.picked - {RetryCommit} == {};
    ss', acts' := Then(cfg, ss, acts, t, none, Find(RetryCommit), t1, none);
    var t2 := t.(jobs := t.jobs[RetryCommit := Job(Work({}, {}), true)], picked := {});
    assert t1.jobs[RetryCommit := Job(Work({}, {}), true)] == t2.jobs;
    ss', acts' := Then(cfg, ss', acts', t1, none, Start(RetryCommit, 0, 0), t2, none);
  }

  /** Taken out by a rollback, and then answered PhaseTwoCommitted to the pass that still had it to visit. */
  lemma AnsweredBothWays(cfg: Config, session: GlobalSession, b: BranchSession, now: int) returns (ss: seq<State>, acts: seq<Action>)
    requires Plain(b, session) && cfg.maxRollbackRetryTimeout < 0 && Elapsed(now, session.BeginTime, session.Timeout)
    ensures Run(cfg, ss, acts) && session.XID in ss[|acts|].txs
    ensures var t := ss[|acts|].txs[session.XID]; t.tx.live && b in t.undone && b in t.committed
  {
    ss, acts := ScannedThenCommitted(cfg, session, b);
    hide Run, Elapsed;
    var t := CommitUnderWay(session, b);
    ss, acts := WrittenTooLate(cfg, ss, acts, t, now);
    t := TimedOut(t);
    assert t.tx.branches == {b};
    ss, acts := RollbackStarts(cfg, ss, acts, t);
    t := Retrying(t);
    ss, acts := Answered(cfg, ss, acts, t, RetryRollback, b);
    t := SettledBy(t, RetryRollback, b);
    ss, acts := Answered(cfg, ss, acts, t, SyncCommit, b);
  }
}
