/** pkg/tc/server/transaction_coordinator.go: the handlers and the bodies of the background loops, each
    run without interference. What they compute are the functions of Storage.dfy and Passes.dfy, the
    steps of which Protocol.dfy interleaves. `branchCommit` and `branchRollback` are an oracle. */
module Coordinator {
  import opened Apis
  import opened Storage
  import opened Driver
  import opened Holder
  import opened LockManager
  import opened Passes
  import opened Protocol
  import opened Invariant
  import opened RowCover
  import Runs
  import opened Handlers
  import opened Answers
  import Text
  import Xid

  lemma UpdateNothing(st: Store, x: string)
    requires x in st.txs
    ensures Update(st, x, st.txs[x], st.locks) == st
  {
  }

  lemma UpdateTwice(st: Store, x: string, tx: Tx, tx': Tx, locks: LockTable)
    ensures Update(Put(st, x, tx), x, tx', locks) == Update(st, x, tx', locks)
  {
  }

  lemma UpdateAgain(st: Store, x: string, tx: Tx, locks: LockTable, tx': Tx, locks': LockTable)
    ensures Update(Update(st, x, tx, locks), x, tx', locks') == Update(st, x, tx', locks')
  {
  }

  function BranchSets(st: Store, xids: seq<string>): seq<set<BranchSession>>
  {
    seq(|xids|, i requires 0 <= i < |xids| => if xids[i] in st.txs then st.txs[xids[i]].branches else {})
  }

  predicate EachEnumerates(orders: seq<seq<BranchSession>>, sets: seq<set<BranchSession>>)
  {
    |orders| == |sets| && forall k :: 0 <= k < |orders| ==> Enumerates(orders[k], sets[k])
  }

  lemma EachEnumeratesNone()
    ensures EachEnumerates([], [])
  {
  }

  lemma EachEnumeratesNext(orders: seq<seq<BranchSession>>, sets: seq<set<BranchSession>>, order: seq<BranchSession>)
    requires |orders| < |sets| && EachEnumerates(orders, sets[..|orders|]) && Enumerates(order, sets[|orders|])
    ensures EachEnumerates(orders + [order], sets[..|orders| + 1])
  {
  }

  lemma DecisionSteps(st: Store, x: string, locks: LockTable, status: GlobalStatus)
    requires x in st.txs
    ensures
      var tx := st.txs[x];
      var closed := tx.(active := false);
      var decided := closed.(status := if closed.status.Begin? then status else closed.status);
      Put(Put(st, x, closed).(locks := locks), x, decided) == Update(st, x, decided, locks)
  {
  }

  /** Nothing but transaction x and the lock table differs. */
  predicate OnlyTx(st: Store, st': Store, x: string)
  {
    x in st'.txs && st' == Update(st, x, st'.txs[x], st'.locks)
  }

  lemma OnlyTxTwice(a: Store, b: Store, c: Store, x: string)
    requires OnlyTx(a, b, x) && OnlyTx(b, c, x)
    ensures OnlyTx(a, c, x)
  {
  }

  class TransactionCoordinator {
    const driver: Driver
    const holder: SessionHolder
    const resourceDataLocker: LockManager
    const cfg: Config

    /** The run of Protocol.dfy that the calls so far make up. */
    ghost var past: History

    constructor (cfg: Config)
      ensures Valid() && fresh(driver.Footprint()) && this.cfg == cfg
      ensures driver.store == Store(map[], map[]) && Traced()
    {
      past := EMPTY;
      var d := new Driver();
      this.cfg := cfg;
      driver := d;
      holder := new SessionHolder(d);
      resourceDataLocker := new LockManager(d);
    }

    ghost predicate Valid()
      reads driver, driver.sessions, driver.registered
    {
      holder.manager == driver && resourceDataLocker.manager == driver && driver.Valid()
    }

    ghost predicate Traced()
      reads this, driver
    {
      past.Traces(cfg, driver.store)
    }

    /** The handler's copy is of a session the coordinator began. */
    ghost predicate Knows(gt: GlobalTransaction)
      reads driver
    {
      gt.Session.XID in driver.store.txs && driver.store.txs[gt.Session.XID].session == gt.Session
    }

    ghost function Current(gt: GlobalTransaction): Tx
      requires Knows(gt)
      reads driver
    {
      driver.store.txs[gt.Session.XID]
    }

    // One branch of a pass ------------------------------------------------------------------------------

    method SettleBranch(gt: GlobalTransaction, b: BranchSession, ghost w: Work) returns (outcome: Outcome)
      requires Valid() && Knows(gt) && w.branches == gt.BranchSessions
      modifies driver, gt`BranchSessions
      ensures Valid() && Knows(gt) && driver.SameObjects()
      ensures
        var n := Settle(old(Current(gt)), old(driver.store.locks), w, b);
        driver.store == Update(old(driver.store), gt.Session.XID, n.tx, n.locks)
        && gt.BranchSessions == n.work.branches && outcome == n.outcome
    {
      resourceDataLocker.ReleaseLock(b);
      gt.BranchSessions := gt.BranchSessions - {b};
      var ok := holder.RemoveBranchSession(gt.Session, b);
      outcome := if ok then GoesOn else Returns(false, true);
    }

    /** Drop the rows of the handler's copy, if asked to, and remove the transaction. */
    method RemoveTransaction(gt: GlobalTransaction, unlock: bool) returns (ok: bool)
      requires Valid() && Knows(gt)
      modifies driver, gt.Session`Status
      ensures Valid() && Knows(gt) && driver.SameObjects()
      ensures ok == (gt.BranchSessions == {})
      ensures driver.store == Update(old(driver.store), gt.Session.XID, Removed(old(Current(gt))),
                if unlock then Released(old(driver.store.locks), ClaimsOf(gt.BranchSessions)) else old(driver.store.locks))
    {
      if unlock {
        resourceDataLocker.ReleaseGlobalSessionLock(gt);
      }
      ok := holder.RemoveGlobalTransaction(gt);
    }

    method ConcludeTransaction(gt: GlobalTransaction, status: GlobalStatus, done: bool, ghost w: Work) returns (outcome: Outcome)
      requires Valid() && Knows(gt) && w.branches == gt.BranchSessions
      modifies driver, gt.Session`Status
      ensures Valid() && Knows(gt) && driver.SameObjects()
      ensures
        var n := Conclude(old(Current(gt)), old(driver.store.locks), w, status, done);
        driver.store == Update(old(driver.store), gt.Session.XID, n.tx, n.locks) && outcome == n.outcome
    {
      var ok := holder.UpdateGlobalSessionStatus(gt.Session, status);
      if !ok {
        return Returns(false, true);
      }
      ghost var n := Conclude(old(Current(gt)), old(driver.store.locks), w, status, done);
      ok := RemoveTransaction(gt, true);
      UpdateTwice(old(driver.store), gt.Session.XID, old(Current(gt)).(status := status), n.tx, n.locks);
      outcome := if ok then Returns(done, false) else Returns(false, true);
    }

    method GiveUpPass(gt: GlobalTransaction, retrying: bool, status: GlobalStatus, error: bool, ghost w: Work) returns (outcome: Outcome)
      requires Valid() && Knows(gt)
      modifies driver, gt.Session`Status
      ensures Valid() && Knows(gt) && driver.SameObjects()
      ensures
        var n := GiveUp(old(Current(gt)), old(driver.store.locks), w, retrying, status, error);
        driver.store == Update(old(driver.store), gt.Session.XID, n.tx, n.locks) && outcome == n.outcome
    {
      UpdateNothing(driver.store, gt.Session.XID);
      if retrying {
        return Returns(false, error);
      }
      var ok := holder.UpdateGlobalSessionStatus(gt.Session, status);
      return Returns(false, error || !ok);
    }

    method VisitCommitBranch(gt: GlobalTransaction, b: BranchSession, retrying: bool, answer: Answer, ghost w: Work)
      returns (outcome: Outcome)
      requires Valid() && Knows(gt) && w.branches == gt.BranchSessions
      modifies driver, gt.Session`Status, gt`BranchSessions
      ensures Valid() && Knows(gt) && driver.SameObjects()
      ensures
        var n := VisitCommit(old(Current(gt)), old(driver.store.locks), w, b, retrying, answer);
        driver.store == Update(old(driver.store), gt.Session.XID, n.tx, n.locks)
        && gt.BranchSessions == n.work.branches && outcome == n.outcome
    {
      UpdateNothing(driver.store, gt.Session.XID);
      if answer.CallError? {
        outcome := GiveUpPass(gt, retrying, CommitRetrying, true, w);
        return;
      }
      if answer.status == PhaseTwoCommitted {
        outcome := SettleBranch(gt, b, w);
      } else {
        var async := gt.CanBeCommittedAsync();
        if async && (retrying || answer.status == PhaseTwoCommitFailedCanNotRetry) {
          outcome := GoesOn;
        } else if answer.status == PhaseTwoCommitFailedCanNotRetry {
          outcome := ConcludeTransaction(gt, CommitFailed, false, w);
        } else {
          outcome := GiveUpPass(gt, retrying, CommitRetrying, false, w);
        }
      }
    }

    /** The call is made only when the branch needs one. */
    method VisitRollbackBranch(gt: GlobalTransaction, b: BranchSession, retrying: bool, oracle: Oracle, ghost w: Work)
      returns (outcome: Outcome)
      requires Valid() && Knows(gt) && w.branches == gt.BranchSessions && b in Current(gt).report
      modifies driver, gt.Session`Status, gt`BranchSessions
      ensures Valid() && Knows(gt) && driver.SameObjects()
      ensures
        var n := VisitRollback(old(Current(gt)), old(driver.store.locks), w, b, retrying, oracle(b));
        driver.store == Update(old(driver.store), gt.Session.XID, n.tx, n.locks)
        && gt.BranchSessions == n.work.branches && outcome == n.outcome
    {
      hide IsTimeoutStatus, ClaimsOf, Released, BranchClaims;
      if b.Status == PhaseOneFailed {
        outcome := SettleBranch(gt, b, w);
        return;
      }
      var answer := oracle(b);
      var timedOut := gt.IsTimeoutGlobalStatus();
      if answer.CallError? {
        outcome := GiveUpPass(gt, retrying, if timedOut then TimeoutRollbackRetrying else RollbackRetrying, true, w);
      } else if answer.status == PhaseTwoRolledBack {
        outcome := SettleBranch(gt, b, w);
      } else if answer.status == PhaseTwoRollbackFailedCanNotRetry {
        outcome := ConcludeTransaction(gt, if timedOut then TimeoutRollbackFailed else RollbackFailed, false, w);
      } else {
        outcome := GiveUpPass(gt, retrying, if timedOut then TimeoutRollbackRetrying else RollbackRetrying, false, w);
      }
    }

    /** After the last branch: a second look at the store, then the final status and the removal. */
    method FinishPass(gt: GlobalTransaction, commits: bool, ghost w: Work) returns (outcome: Outcome)
      requires Valid() && Knows(gt) && w.branches == gt.BranchSessions
      modifies driver, gt.Session`Status
      ensures Valid() && Knows(gt) && driver.SameObjects()
      ensures
        var n := if commits then FinishCommit(old(Current(gt)), old(driver.store.locks), w)
                 else FinishRollback(old(Current(gt)), old(driver.store.locks), w);
        driver.store == Update(old(driver.store), gt.Session.XID, n.tx, n.locks) && outcome == n.outcome
    {
      UpdateNothing(driver.store, gt.Session.XID);
      var gs := holder.FindGlobalTransaction(gt.Session.XID);
      if gs != null && gs.HasBranch() {
        return Returns(false, false);
      }
      var status := if commits then Committed else if gt.IsTimeoutGlobalStatus() then TimeoutRolledBack else RolledBack;
      outcome := ConcludeTransaction(gt, status, true, w);
    }

    // A whole pass --------------------------------------------------------------------------------------

    /** `order` is the order in which the map was walked. */
    method DoGlobalCommit(gt: GlobalTransaction, retrying: bool, oracle: Oracle)
      returns (done: bool, error: bool, ghost order: seq<BranchSession>)
      requires Valid() && Knows(gt)
      modifies driver, gt.Session`Status, gt`BranchSessions
      ensures Valid() && Knows(gt) && driver.SameObjects()
      ensures Enumerates(order, old(gt.BranchSessions))
      ensures
        var r := CommitPass(old(Current(gt)), old(driver.store.locks), old(gt.BranchSessions), order, retrying, oracle);
        driver.store == Update(old(driver.store), gt.Session.XID, r.tx, r.locks) && done == r.done && error == r.error
    {
      UpdateNothing(driver.store, gt.Session.XID);
      var saga := gt.IsSaga();
      var branches := Walk(gt.BranchSessions);
      order := branches;
      if saga {
        return false, true, order;
      }
      done, error := CommitBranches(gt, branches, retrying, oracle);
    }

    method CommitBranches(gt: GlobalTransaction, order: seq<BranchSession>, retrying: bool, oracle: Oracle)
      returns (done: bool, error: bool)
      requires Valid() && Knows(gt)
      modifies driver, gt.Session`Status, gt`BranchSessions
      ensures Valid() && Knows(gt) && driver.SameObjects()
      ensures
        var bs := old(gt.BranchSessions);
        var r := CommitLoop(old(Current(gt)), old(driver.store.locks), Work(bs, bs), order, retrying, oracle);
        driver.store == Update(old(driver.store), gt.Session.XID, r.tx, r.locks) && done == r.done && error == r.error
    {
      ghost var w := Work(gt.BranchSessions, gt.BranchSessions);
      ghost var log := [];
      ghost var r := CommitRest(gt, w, order, retrying, oracle, log);
      UpdateNothing(driver.store, gt.Session.XID);
      hide Driver.Valid, CommitLoop, VisitCommit, FinishCommit;
      var i := 0;
      while i < |order|
        invariant 0 <= i <= |order|
        invariant Valid() && Knows(gt) && driver.SameObjects()
        invariant OnlyTx(old(driver.store), driver.store, gt.Session.XID)
        invariant w.branches == gt.BranchSessions
        invariant r == CommitRest(gt, w, order[i..], retrying, oracle, log)
      {
        ghost var st := driver.store;
        var outcome;
        outcome, w, log := CommitRound(gt, order, i, retrying, oracle, w, log);
        OnlyTxTwice(old(driver.store), st, driver.store, gt.Session.XID);
        if outcome.Returns? {
          return outcome.done, outcome.error;
        }
        i := i + 1;
      }
      assert order[i..] == [];
      ghost var st := driver.store;
      var outcome := CommitEnd(gt, retrying, oracle, w, log);
      OnlyTxTwice(old(driver.store), st, driver.store, gt.Session.XID);
      return outcome.done, outcome.error;
    }

    /** What a pass that has made the calls of `log` leaves in the end. */
    ghost function CommitRest(gt: GlobalTransaction, w: Work, order: seq<BranchSession>, retrying: bool, oracle: Oracle, log: seq<Call>): Result
      requires Knows(gt)
      reads driver
    {
      Prepend(log, CommitLoop(Current(gt), driver.store.locks, w, order, retrying, oracle))
    }

    method CommitEnd(gt: GlobalTransaction, retrying: bool, oracle: Oracle, ghost w: Work, ghost log: seq<Call>)
      returns (outcome: Outcome)
      requires Valid() && Knows(gt) && w.branches == gt.BranchSessions
      modifies driver, gt.Session`Status
      ensures Valid() && Knows(gt) && driver.SameObjects()
      ensures OnlyTx(old(driver.store), driver.store, gt.Session.XID)
      ensures outcome.Returns?
      ensures old(CommitRest(gt, w, [], retrying, oracle, log)) ==
          Result(Current(gt), driver.store.locks, outcome.done, outcome.error, log)
    {
      ghost var n := FinishCommit(Current(gt), driver.store.locks, w);
      assert n.outcome.Returns? && CommitRest(gt, w, [], retrying, oracle, log) == Ending(n, log + []);
      outcome := FinishPass(gt, true, w);
    }

    method CommitRound(gt: GlobalTransaction, order: seq<BranchSession>, i: nat, retrying: bool, oracle: Oracle,
                       ghost w: Work, ghost log: seq<Call>)
      returns (outcome: Outcome, ghost w': Work, ghost log': seq<Call>)
      requires Valid() && Knows(gt) && w.branches == gt.BranchSessions && i < |order|
      modifies driver, gt.Session`Status, gt`BranchSessions
      ensures Valid() && Knows(gt) && driver.SameObjects()
      ensures OnlyTx(old(driver.store), driver.store, gt.Session.XID)
      ensures outcome.GoesOn? ==> w'.branches == gt.BranchSessions
      ensures
        var r := old(CommitRest(gt, w, order[i..], retrying, oracle, log));
        if outcome.GoesOn? then r == CommitRest(gt, w', order[i + 1..], retrying, oracle, log')
        else r == Result(Current(gt), driver.store.locks, outcome.done, outcome.error, log')
    {
      CommitNext(Current(gt), driver.store.locks, w, order, i, retrying, oracle, log);
      w' := VisitCommit(Current(gt), driver.store.locks, w, order[i], retrying, oracle(order[i])).work;
      log' := log + [Call(order[i], oracle(order[i]))];
      outcome := VisitCommitBranch(gt, order[i], retrying, oracle(order[i]), w);
    }

    method DoGlobalRollback(gt: GlobalTransaction, retrying: bool, oracle: Oracle)
      returns (done: bool, error: bool, ghost order: seq<BranchSession>)
      requires Valid() && Knows(gt) && gt.BranchSessions <= Current(gt).report.Keys
      modifies driver, gt.Session`Status, gt`BranchSessions
      ensures Valid() && Knows(gt) && driver.SameObjects()
      ensures Enumerates(order, old(gt.BranchSessions))
      ensures
        var r := RollbackPass(old(Current(gt)), old(driver.store.locks), old(gt.BranchSessions), order, retrying, oracle);
        driver.store == Update(old(driver.store), gt.Session.XID, r.tx, r.locks) && done == r.done && error == r.error
    {
      UpdateNothing(driver.store, gt.Session.XID);
      var saga := gt.IsSaga();
      var branches := Walk(gt.BranchSessions);
      order := branches;
      if saga {
        return false, true, order;
      }
      done, error := RollbackBranches(gt, branches, retrying, oracle);
    }

    method RollbackBranches(gt: GlobalTransaction, order: seq<BranchSession>, retrying: bool, oracle: Oracle)
      returns (done: bool, error: bool)
      requires Valid() && Knows(gt) && forall b :: b in order ==> b in Current(gt).report
      modifies driver, gt.Session`Status, gt`BranchSessions
      ensures Valid() && Knows(gt) && driver.SameObjects()
      ensures
        var bs := old(gt.BranchSessions);
        var r := RollbackLoop(old(Current(gt)), old(driver.store.locks), Work(bs, bs), order, retrying, oracle);
        driver.store == Update(old(driver.store), gt.Session.XID, r.tx, r.locks) && done == r.done && error == r.error
    {
      ghost var w := Work(gt.BranchSessions, gt.BranchSessions);
      ghost var log := [];
      ghost var r := RollbackRest(gt, w, order, retrying, oracle, log);
      UpdateNothing(driver.store, gt.Session.XID);
      hide Driver.Valid;
      var i := 0;
      while i < |order|
        invariant 0 <= i <= |order|
        invariant Valid() && Knows(gt) && driver.SameObjects()
        invariant OnlyTx(old(driver.store), driver.store, gt.Session.XID)
        invariant w.branches == gt.BranchSessions && Current(gt).report == old(Current(gt)).report
        invariant r == RollbackRest(gt, w, order[i..], retrying, oracle, log)
      {
        ghost var st := driver.store;
        var outcome;
        outcome, w, log := RollbackRound(gt, order, i, retrying, oracle, w, log);
        OnlyTxTwice(old(driver.store), st, driver.store, gt.Session.XID);
        if outcome.Returns? {
          return outcome.done, outcome.error;
        }
        i := i + 1;
      }
      assert order[i..] == [];
      ghost var st := driver.store;
      var outcome := RollbackEnd(gt, retrying, oracle, w, log);
      OnlyTxTwice(old(driver.store), st, driver.store, gt.Session.XID);
      return outcome.done, outcome.error;
    }

    ghost function RollbackRest(gt: GlobalTransaction, w: Work, order: seq<BranchSession>, retrying: bool, oracle: Oracle, log: seq<Call>): Result
      requires Knows(gt)
      reads driver
    {
      Prepend(log, RollbackLoop(Current(gt), driver.store.locks, w, order, retrying, oracle))
    }

    method RollbackEnd(gt: GlobalTransaction, retrying: bool, oracle: Oracle, ghost w: Work, ghost log: seq<Call>)
      returns (outcome: Outcome)
      requires Valid() && Knows(gt) && w.branches == gt.BranchSessions
      modifies driver, gt.Session`Status
      ensures Valid() && Knows(gt) && driver.SameObjects()
      ensures OnlyTx(old(driver.store), driver.store, gt.Session.XID)
      ensures outcome.Returns?
      ensures old(RollbackRest(gt, w, [], retrying, oracle, log)) ==
          Result(Current(gt), driver.store.locks, outcome.done, outcome.error, log)
    {
      ghost var n := FinishRollback(Current(gt), driver.store.locks, w);
      assert n.outcome.Returns? && RollbackRest(gt, w, [], retrying, oracle, log) == Ending(n, log + []);
      outcome := FinishPass(gt, false, w);
    }

    method RollbackRound(gt: GlobalTransaction, order: seq<BranchSession>, i: nat, retrying: bool, oracle: Oracle,
                       ghost w: Work, ghost log: seq<Call>)
      returns (outcome: Outcome, ghost w': Work, ghost log': seq<Call>)
      requires Valid() && Knows(gt) && w.branches == gt.BranchSessions && i < |order| && order[i] in Current(gt).report
      modifies driver, gt.Session`Status, gt`BranchSessions
      ensures Valid() && Knows(gt) && driver.SameObjects()
      ensures OnlyTx(old(driver.store), driver.store, gt.Session.XID)
      ensures Current(gt).report == old(Current(gt)).report
      ensures outcome.GoesOn? ==> w'.branches == gt.BranchSessions
      ensures
        var r := old(RollbackRest(gt, w, order[i..], retrying, oracle, log));
        if outcome.GoesOn? then r == RollbackRest(gt, w', order[i + 1..], retrying, oracle, log')
        else r == Result(Current(gt), driver.store.locks, outcome.done, outcome.error, log')
    {
      RollbackNext(Current(gt), driver.store.locks, w, order, i, retrying, oracle, log);
      w' := VisitRollback(Current(gt), driver.store.locks, w, order[i], retrying, oracle(order[i])).work;
      log' := log + CallsFor(Current(gt), order[i], oracle);
      outcome := VisitRollbackBranch(gt, order[i], retrying, oracle, w);
    }

    // The handlers ----------------------------------------------------------------------------------------

    ghost predicate Stored(xid: string)
      reads driver
    {
      xid in driver.store.txs && driver.store.txs[xid].live
    }

    /** `NextID` has given a transaction id that no transaction has; `now` is the clock. */
    method Begin(addressing: string, name: string, timeout: int, transactionID: int, now: int) returns (xid: string)
      requires Valid() && Traced() && Text.IsInt64(transactionID)
      requires forall x :: x in driver.store.txs ==> driver.store.txs[x].Tid() != transactionID
      modifies this`past, driver
      ensures Valid() && Traced() && past.Extends(old(past))
      ensures xid == Xid.GenerateXID(addressing, transactionID) && xid !in old(driver.store).txs && Stored(xid)
      ensures
        var s := driver.store.txs[xid].session;
        && driver.store == Update(old(driver.store), xid, Opened(s), old(driver.store.locks))
        && fresh(s) && s.Addressing == addressing && s.TransactionID == transactionID
        && s.TransactionName == name && s.Timeout == timeout && s.BeginTime == now
        && driver.sessions == old(driver.sessions) + {s} && driver.registered == old(driver.registered)
    {
      hide History.Traces;
      xid := Xid.GenerateXID(addressing, transactionID);
      var session := new GlobalSession(addressing, xid, transactionID, name, timeout, now);
      ghost var h := BeginExtends(cfg, driver.store, past, session);
      driver.AddGlobalSession(session);
      past := h;
    }

    method GetStatus(xid: string) returns (response: Response)
      requires Valid()
      ensures response == Success(if Stored(xid) then driver.store.txs[xid].status else Finished)
    {
      var session := driver.FindGlobalSession(xid);
      if session == null {
        return Success(Finished);
      }
      return Success(session.Status);
    }

    /** Only a stored session is open. */
    ghost predicate OpenIsStored(gt: GlobalTransaction)
      requires Knows(gt)
      reads driver
    {
      Current(gt).active || Current(gt).status.Begin? ==> Current(gt).live
    }

    /** Firstly, close the session: no more branch can be registered. */
    method Close(session: GlobalSession)
      requires Valid() && session.XID in driver.store.txs
      requires var tx := driver.store.txs[session.XID]; tx.session == session && (tx.active ==> tx.live)
      modifies driver`store, session`Active
      ensures Valid() && driver.SameObjects()
      ensures driver.store == Put(old(driver.store), session.XID, old(driver.store).txs[session.XID].(active := false))
    {
      if session.Active {
        var ok := holder.InactiveGlobalSession(session);
      } else {
        UpdateNothing(driver.store, session.XID);
        assert driver.store.txs[session.XID].(active := false) == driver.store.txs[session.XID];
      }
    }

    /** Then take the decision, if it is still to be taken. */
    method Decide(gt: GlobalTransaction, status: GlobalStatus) returns (go: bool)
      requires Valid() && Knows(gt) && (Current(gt).status.Begin? ==> Current(gt).live)
      modifies driver`store, gt.Session`Status
      ensures Valid() && Knows(gt) && driver.SameObjects()
      ensures go == old(Current(gt)).status.Begin?
      ensures driver.store == Put(old(driver.store), gt.Session.XID,
                                  old(Current(gt)).(status := if go then status else old(Current(gt)).status))
    {
      go := gt.Session.Status.Begin?;
      if go {
        var ok := holder.UpdateGlobalSessionStatus(gt.Session, status);
      } else {
        UpdateNothing(driver.store, gt.Session.XID);
        assert Current(gt).(status := Current(gt).status) == Current(gt);
      }
    }

    /** The part of `Commit` under the session's lock, whatever copy of the branch set the lookup gave. */
    method DecideToCommit(gt: GlobalTransaction) returns (go: bool)
      requires Valid() && Knows(gt) && OpenIsStored(gt)
      modifies driver, gt.Session`Status, gt.Session`Active
      ensures Valid() && Knows(gt) && driver.SameObjects()
      ensures go == old(Current(gt)).status.Begin?
      ensures
        var decision := DecideCommit(old(Current(gt)), old(driver.store.locks), gt.BranchSessions);
        driver.store == Update(old(driver.store), gt.Session.XID, decision.1, decision.2)
    {
      hide Driver.Valid, Released;
      ghost var st := driver.store;
      DecisionSteps(st, gt.Session.XID, Released(st.locks, ClaimsOf(gt.BranchSessions)), Committing);
      Close(gt.Session);
      driver.At(gt.Session.XID);
      resourceDataLocker.ReleaseGlobalSessionLock(gt);
      go := Decide(gt, Committing);
    }

    method DecideToRollback(gt: GlobalTransaction) returns (go: bool)
      requires Valid() && Knows(gt) && OpenIsStored(gt)
      modifies driver, gt.Session`Status, gt.Session`Active
      ensures Valid() && Knows(gt) && driver.SameObjects()
      ensures go == old(Current(gt)).status.Begin?
      ensures driver.store == Update(old(driver.store), gt.Session.XID, DecideRollback(old(Current(gt))).1, old(driver.store.locks))
    {
      DecisionSteps(driver.store, gt.Session.XID, driver.store.locks, RollingBack);
      Close(gt.Session);
      go := Decide(gt, RollingBack);
    }

    /** The handler has this transaction from a lookup of its own. */
    ghost predicate LookedUp(gt: GlobalTransaction)
      reads this`past, driver, gt
    {
      Knows(gt) && past.HasCopy(gt.Session.XID, gt.BranchSessions)
    }

    /** The lookup with which `Commit` and `Rollback` begin. Other calls may come before CommitFound or
        RollbackFound. */
    method LookUpTransaction(xid: string) returns (gt: GlobalTransaction?)
      requires Valid() && Traced()
      modifies this`past
      ensures Valid() && Traced() && past.Extends(old(past))
      ensures gt == null <==> !Stored(xid)
      ensures gt != null ==> fresh(gt) && gt.Session.XID == xid && LookedUp(gt) && gt.BranchSessions == driver.store.txs[xid].branches
    {
      hide History.Traces;
      gt := holder.FindGlobalTransaction(xid);
      if gt != null {
        past := LookUpExtends(cfg, driver.store, past, xid);
      }
    }

    /** What a lookup lets the decision rely on. */
    lemma Found(gt: GlobalTransaction)
      requires Valid() && Traced() && LookedUp(gt)
      ensures OpenIsStored(gt) && gt.BranchSessions <= Current(gt).report.Keys
    {
      TracedTx(cfg, driver.store, past, gt.Session.XID);
      hide History.Traces;
    }

    /** A lookup outlasts whatever calls come after it: `before` and `st` are the past and the store then. */
    lemma StillLookedUp(before: History, st: Store, gt: GlobalTransaction)
      requires Valid() && Traced() && past.Extends(before) && before.Traces(cfg, st)
      requires gt.Session.XID in st.txs && st.txs[gt.Session.XID].session == gt.Session
      requires before.HasCopy(gt.Session.XID, gt.BranchSessions)
      ensures LookedUp(gt)
    {
      CopyKept(cfg, before, past, gt.Session.XID, gt.BranchSessions);
      TracedTx(cfg, st, before, gt.Session.XID);
    }

    method Commit(xid: string, oracle: Oracle) returns (response: Response, ghost order: seq<BranchSession>)
      requires Valid() && Traced()
      modifies this`past, driver, driver.sessions
      ensures Valid() && Traced() && driver.SameObjects() && past.Extends(old(past))
      ensures !old(Stored(xid)) ==> response == Success(Finished) && driver.store == old(driver.store)
      ensures old(Stored(xid)) ==>
          var tx := old(driver.store).txs[xid];
          var outcome := HandleCommit(tx, old(driver.store.locks), tx.branches, order, oracle);
          Enumerates(order, tx.branches) && response == outcome.0
          && driver.store == Update(old(driver.store), xid, outcome.1, outcome.2)
    {
      hide History.Traces;
      var gt := LookUpTransaction(xid);
      if gt == null {
        return Success(Finished), [];
      }
      response, order := CommitFound(gt, oracle);
    }

    /** `Commit` from its lookup on, with the copy of the branch set that the lookup gave, however old. */
    method CommitFound(gt: GlobalTransaction, oracle: Oracle) returns (response: Response, ghost order: seq<BranchSession>)
      requires Valid() && Traced() && LookedUp(gt)
      modifies this`past, driver, gt.Session`Status, gt.Session`Active, gt`BranchSessions
      ensures Valid() && Traced() && driver.SameObjects() && past.Extends(old(past)) && Enumerates(order, old(gt.BranchSessions))
      ensures
        var outcome := HandleCommit(old(Current(gt)), old(driver.store.locks), old(gt.BranchSessions), order, oracle);
        response == outcome.0 && driver.store == Update(old(driver.store), gt.Session.XID, outcome.1, outcome.2)
    {
      hide History.Traces, History.HasCopy;
      Found(gt);
      response, order := CommitCopy(gt, oracle);
      past := CommitExtends(cfg, old(driver.store), past, gt.Session.XID, old(gt.BranchSessions), order, oracle);
    }

    method CommitCopy(gt: GlobalTransaction, oracle: Oracle) returns (response: Response, ghost order: seq<BranchSession>)
      requires Valid() && Knows(gt) && OpenIsStored(gt)
      modifies driver, gt.Session`Status, gt.Session`Active, gt`BranchSessions
      ensures Valid() && driver.SameObjects() && Enumerates(order, old(gt.BranchSessions))
      ensures
        var outcome := HandleCommit(old(Current(gt)), old(driver.store.locks), old(gt.BranchSessions), order, oracle);
        response == outcome.0 && driver.store == Update(old(driver.store), gt.Session.XID, outcome.1, outcome.2)
    {
      ghost var x, copy := gt.Session.XID, gt.BranchSessions;
      ghost var decision := DecideCommit(Current(gt), driver.store.locks, copy);
      var go := DecideToCommit(gt);
      if go {
        response, order := CommitGoesOn(gt, oracle);
        ghost var outcome := CommitDecided(decision.1, decision.2, copy, order, oracle);
        UpdateAgain(old(driver.store), x, decision.1, decision.2, outcome.1, outcome.2);
      } else {
        order := AnOrder(gt.BranchSessions);
        response := Success(if gt.Session.Status == AsyncCommitting then Committed else gt.Session.Status);
      }
    }

    method CommitGoesOn(gt: GlobalTransaction, oracle: Oracle) returns (response: Response, ghost order: seq<BranchSession>)
      requires Valid() && Knows(gt) && Current(gt).live
      modifies driver, gt.Session`Status, gt`BranchSessions
      ensures Valid() && driver.SameObjects() && Enumerates(order, old(gt.BranchSessions))
      ensures
        var outcome := CommitDecided(old(Current(gt)), old(driver.store.locks), old(gt.BranchSessions), order, oracle);
        response == outcome.0 && driver.store == Update(old(driver.store), gt.Session.XID, outcome.1, outcome.2)
    {
      var async := gt.CanBeCommittedAsync();
      if async {
        var ok := holder.UpdateGlobalSessionStatus(gt.Session, AsyncCommitting);
        order := AnOrder(gt.BranchSessions);
        return Success(Committed), order;
      }
      var done, error;
      done, error, order := DoGlobalCommit(gt, false, oracle);
      response := if error then Failed(UnknownErr, gt.Session.Status) else Success(Committed);
    }

    method Rollback(xid: string, oracle: Oracle) returns (response: Response, ghost order: seq<BranchSession>)
      requires Valid() && Traced()
      modifies this`past, driver, driver.sessions
      ensures Valid() && Traced() && driver.SameObjects() && past.Extends(old(past))
      ensures !old(Stored(xid)) ==> response == Success(Finished) && driver.store == old(driver.store)
      ensures old(Stored(xid)) ==>
          var tx := old(driver.store).txs[xid];
          var outcome := HandleRollback(tx, old(driver.store.locks), tx.branches, order, oracle);
          Enumerates(order, tx.branches) && response == outcome.0
          && driver.store == Update(old(driver.store), xid, outcome.1, outcome.2)
    {
      hide History.Traces;
      var gt := LookUpTransaction(xid);
      if gt == null {
        return Success(Finished), [];
      }
      response, order := RollbackFound(gt, oracle);
    }

    /** `Rollback` from its lookup on. */
    method RollbackFound(gt: GlobalTransaction, oracle: Oracle) returns (response: Response, ghost order: seq<BranchSession>)
      requires Valid() && Traced() && LookedUp(gt)
      modifies this`past, driver, gt.Session`Status, gt.Session`Active, gt`BranchSessions
      ensures Valid() && Traced() && driver.SameObjects() && past.Extends(old(past)) && Enumerates(order, old(gt.BranchSessions))
      ensures
        var outcome := HandleRollback(old(Current(gt)), old(driver.store.locks), old(gt.BranchSessions), order, oracle);
        response == outcome.0 && driver.store == Update(old(driver.store), gt.Session.XID, outcome.1, outcome.2)
    {
      hide History.Traces, History.HasCopy;
      Found(gt);
      response, order := RollbackCopy(gt, oracle);
      past := RollbackExtends(cfg, old(driver.store), past, gt.Session.XID, old(gt.BranchSessions), order, oracle);
    }

    method RollbackCopy(gt: GlobalTransaction, oracle: Oracle) returns (response: Response, ghost order: seq<BranchSession>)
      requires Valid() && Knows(gt) && OpenIsStored(gt) && gt.BranchSessions <= Current(gt).report.Keys
      modifies driver, gt.Session`Status, gt.Session`Active, gt`BranchSessions
      ensures Valid() && driver.SameObjects() && Enumerates(order, old(gt.BranchSessions))
      ensures
        var outcome := HandleRollback(old(Current(gt)), old(driver.store.locks), old(gt.BranchSessions), order, oracle);
        response == outcome.0 && driver.store == Update(old(driver.store), gt.Session.XID, outcome.1, outcome.2)
    {
      ghost var x, copy := gt.Session.XID, gt.BranchSessions;
      ghost var tx' := DecideRollback(Current(gt)).1;
      var go := DecideToRollback(gt);
      if go {
        ghost var locks := driver.store.locks;
        var done, error;
        done, error, order := DoGlobalRollback(gt, false, oracle);
        response := if error then RpcError else Success(gt.Session.Status);
        ghost var outcome := RollbackDecided(tx', locks, copy, order, oracle);
        UpdateAgain(old(driver.store), x, tx', locks, outcome.1, outcome.2);
      } else {
        order := AnOrder(gt.BranchSessions);
        response := Success(gt.Session.Status);
      }
    }

    /** `branchID` is what `NextID` gives, and `skipCheckLock` what the application data decodes to. No
        branch is made for a transaction that takes none. */
    method BranchRegister(addressing: string, xid: string, resourceID: string, lockKey: string, branchType: BranchType,
                          asyncCommit: bool, branchID: int, skipCheckLock: bool)
      returns (verdict: Verdict, ghost b: BranchSession?)
      requires Valid() && Traced()
      modifies this`past, driver
      ensures Valid() && Traced() && past.Extends(old(past)) && driver.sessions == old(driver.sessions)
      ensures driver.registered == old(driver.registered) + if verdict == Accepted then {b} else {}
      ensures !old(Stored(xid)) ==> verdict == Refused(GlobalTransactionNotExist)
      ensures old(Stored(xid)) ==> (b == null <==> verdict.Refused? && verdict.code != LockKeyConflict)
      ensures b == null ==> driver.store == old(driver.store)
      ensures b == null && old(Stored(xid)) ==> verdict == old(WhyClosed(xid))
      ensures b != null ==>
          && old(Stored(xid)) && fresh(b) && old(WhyClosed(xid)) == Accepted
          && b.Addressing == addressing && b.XID == xid && b.BranchID == branchID && b.ResourceID == resourceID
          && b.LockKey == lockKey && b.Type == branchType && b.AsyncCommit == (branchType == AT || asyncCommit)
          && b.TransactionID == old(driver.store).txs[xid].Tid()
          && var outcome := Storage.Register(old(driver.store).txs[xid], old(driver.store.locks), b);
             verdict == outcome.0 && driver.store == Update(old(driver.store), xid, outcome.1, outcome.2)
      ensures b != null ==> (verdict == Refused(LockKeyConflict) <==> branchType == AT && Conflicts(old(driver.LockMap), b))
      ensures b != null && verdict.Refused? ==> driver.store.txs == old(driver.store).txs
      ensures b != null && verdict == Accepted ==>
          && driver.store.txs[xid].branches == old(driver.store).txs[xid].branches + {b}
          && (branchType == AT ==> forall r :: r in BranchRows(b).Items() ==>
                r.rowKey in driver.LockMap && driver.LockMap[r.rowKey] == b.TransactionID)
    {
      hide History.Traces;
      var gt := holder.FindGlobalTransaction(xid);
      if gt == null {
        return Refused(GlobalTransactionNotExist), null;
      }
      if !gt.Session.Active {
        return Refused(GlobalTransactionNotActive), null;
      }
      if !gt.Session.Status.Begin? {
        return Refused(GlobalTransactionStatusInvalid), null;
      }
      var bs := new BranchSession(addressing, xid, branchID, gt.Session.TransactionID, resourceID, lockKey,
                                  branchType, branchType == AT || asyncCommit);
      Registration(Current(gt), driver.store.locks, bs);
      ghost var st := driver.store;
      verdict := RegisterTraced(gt, bs, skipCheckLock);
      b := bs;
      UpdateNothing(st, xid);
      hide Storage.Register;
      forall r | r in BranchRows(bs).Items() ensures InLockKey(r.rowKey, bs) {
      }
    }

    /** Why a stored transaction takes no branch. */
    ghost function WhyClosed(xid: string): Verdict
      requires Stored(xid)
      reads driver
    {
      if !driver.store.txs[xid].active then Refused(GlobalTransactionNotActive)
      else if !driver.store.txs[xid].status.Begin? then Refused(GlobalTransactionStatusInvalid)
      else Accepted
    }

    method RegisterTraced(gt: GlobalTransaction, bs: BranchSession, skipCheckLock: bool) returns (verdict: Verdict)
      requires Valid() && Traced() && Knows(gt) && Current(gt).live && Current(gt).active && Current(gt).status.Begin?
      requires bs.XID == gt.Session.XID && bs.TransactionID == gt.Session.TransactionID && (bs.Type == AT ==> bs.AsyncCommit)
      requires bs !in driver.registered && bs.Status == Registered
      modifies this`past, driver
      ensures Valid() && Traced() && past.Extends(old(past)) && driver.sessions == old(driver.sessions)
      ensures driver.registered == old(driver.registered) + if verdict == Accepted then {bs} else {}
      ensures
        var outcome := Storage.Register(old(Current(gt)), old(driver.store.locks), bs);
        verdict == outcome.0 && driver.store == Update(old(driver.store), gt.Session.XID, outcome.1, outcome.2)
    {
      hide History.Traces;
      ghost var h := RegisterExtends(cfg, driver.store, past, gt.Session.XID, bs);
      verdict := RegisterBranch(gt, bs, skipCheckLock);
      past := h;
    }

    method RegisterBranch(gt: GlobalTransaction, bs: BranchSession, skipCheckLock: bool) returns (verdict: Verdict)
      requires Valid() && Knows(gt) && Current(gt).live && Current(gt).active && Current(gt).status.Begin?
      requires bs.XID == gt.Session.XID && bs !in driver.registered && bs.Status == Registered
      modifies driver
      ensures Valid() && driver.sessions == old(driver.sessions)
      ensures driver.registered == old(driver.registered) + if verdict == Accepted then {bs} else {}
      ensures
        var outcome := Storage.Register(old(Current(gt)), old(driver.store.locks), bs);
        verdict == outcome.0 && driver.store == Update(old(driver.store), gt.Session.XID, outcome.1, outcome.2)
    {
      if bs.Type == AT {
        var acquired := resourceDataLocker.AcquireLock(bs, skipCheckLock);
        if !acquired {
          UpdateNothing(old(driver.store), gt.Session.XID);
          return Refused(LockKeyConflict);
        }
      }
      var added := driver.AddBranchSession(gt.Session, bs);
      verdict := Accepted;
    }

    method BranchReport(xid: string, branchID: int, status: BranchStatus) returns (verdict: Verdict, ghost b: BranchSession?)
      requires Valid() && Traced()
      modifies this`past, driver, driver.registered
      ensures Valid() && Traced() && past.Extends(old(past)) && driver.SameObjects()
      ensures !old(Stored(xid)) ==> verdict == Refused(GlobalTransactionNotExist) && b == null
      ensures old(Stored(xid)) && b == null ==>
          verdict == Refused(BranchTransactionNotExist)
          && forall c :: c in old(driver.store).txs[xid].branches ==> c.BranchID != branchID
      ensures b == null ==> driver.store == old(driver.store)
      ensures b != null ==>
          && old(Stored(xid)) && b in old(driver.store).txs[xid].branches && b.BranchID == branchID && verdict == Accepted
          && driver.store == Update(old(driver.store), xid, Storage.Report(old(driver.store).txs[xid], b, status), old(driver.store.locks))
      ensures b != null ==> driver.store.txs[xid].report == old(driver.store).txs[xid].report[b := status]
    {
      hide History.Traces;
      b := null;
      var gt := holder.FindGlobalTransaction(xid);
      if gt == null {
        return Refused(GlobalTransactionNotExist), null;
      }
      var bs := gt.GetBranch(branchID);
      if bs == null {
        return Refused(BranchTransactionNotExist), null;
      }
      ReportBranch(gt, bs, status);
      return Accepted, bs;
    }

    method ReportBranch(gt: GlobalTransaction, bs: BranchSession, status: BranchStatus)
      requires Valid() && Traced() && Knows(gt) && Current(gt).live && bs in Current(gt).branches
      modifies this`past, driver, bs
      ensures Valid() && Traced() && past.Extends(old(past)) && driver.SameObjects()
      ensures
        driver.store == Update(old(driver.store), gt.Session.XID, Storage.Report(old(Current(gt)), bs, status), old(driver.store.locks))
    {
      hide History.Traces, Storage.Report, Driver.Valid;
      driver.At(gt.Session.XID);
      ghost var h := ReportExtends(cfg, driver.store, past, gt.Session.XID, bs, status);
      WriteReport(gt, bs, status);
      past := h;
    }

    method WriteReport(gt: GlobalTransaction, bs: BranchSession, status: BranchStatus)
      requires Valid() && Knows(gt) && bs in Current(gt).branches
      modifies driver, bs
      ensures Valid() && driver.SameObjects()
      ensures
        driver.store == Update(old(driver.store), gt.Session.XID, Storage.Report(old(Current(gt)), bs, status), old(driver.store.locks))
    {
      driver.UpdateBranchSessionStatus(bs, status);
    }

    method LockQuery(xid: string, resourceID: string, lockKey: string) returns (lockable: bool)
      requires Valid()
      ensures lockable == LockableRows(driver.LockMap, RowLocker.CollectRowLocks(lockKey, resourceID, xid).Items())
    {
      lockable := resourceDataLocker.IsLockable(xid, resourceID, lockKey);
    }

    // The background loops ----------------------------------------------------------------------------------

    method TimeoutSession(gt: GlobalSession, now: int)
      requires Valid() && driver.Found(gt)
      modifies driver, gt`Status, gt`Active
      ensures Valid() && driver.SameObjects()
      ensures driver.store == Update(old(driver.store), gt.XID, DecideTimeout(old(driver.store).txs[gt.XID], now), old(driver.store.locks))
    {
      UpdateNothing(driver.store, gt.XID);
      if Elapsed(now, gt.BeginTime, gt.Timeout) {
        ghost var closed := driver.store.txs[gt.XID].(active := false);
        PutTwice(driver.store, gt.XID, closed, closed.(status := TimeoutRollingBack));
        Close(gt);
        var ok := holder.UpdateGlobalSessionStatus(gt, TimeoutRollingBack);
      }
    }

    method TimeoutTraced(gt: GlobalSession, now: int)
      requires Valid() && Traced() && driver.Found(gt) && gt.Status.Begin?
      modifies this`past, driver, gt`Status, gt`Active
      ensures Valid() && Traced() && past.Extends(old(past)) && driver.SameObjects()
      ensures driver.store == Update(old(driver.store), gt.XID, DecideTimeout(old(driver.store).txs[gt.XID], now), old(driver.store.locks))
    {
      hide History.Traces;
      ghost var h := TimeoutExtends(cfg, driver.store, past, gt.XID, now);
      TimeoutSession(gt, now);
      past := h;
    }

    /** `timeoutCheck`: reading i of the clock decides about the i-th session found. */
    method TimeoutCheck(clock: int -> int) returns (ghost xids: seq<string>)
      requires Valid() && Traced()
      modifies this`past, driver, driver.sessions
      ensures Valid() && Traced() && past.Extends(old(past)) && driver.SameObjects()
      ensures forall i, j :: 0 <= i < j < |xids| ==> xids[i] != xids[j]
      ensures forall x :: x in xids <==> old(Open(x))
      ensures EachTimedOut(clock, old(driver.store), driver.store, xids)
    {
      hide History.Traces, EachTimedOut, TimeoutAll;
      var found := OpenSessions();
      xids := seq(|found|, i requires 0 <= i < |found| => found[i].XID);
      forall x ensures x in xids <==> Open(x) {
        if Open(x) {
          var i :| 0 <= i < |found| && found[i].XID == x;
          assert xids[i] == x;
        }
      }
      TimeoutFound(found, clock, xids);
      TimeoutEach(clock, old(driver.store), xids);
    }

    ghost predicate Open(xid: string)
      reads driver
    {
      Stored(xid) && driver.store.txs[xid].status.Begin?
    }

    method OpenSessions() returns (found: seq<GlobalSession>)
      requires Valid()
      ensures forall s :: s in found ==> driver.Found(s) && Open(s.XID)
      ensures forall x :: Open(x) ==> exists i :: 0 <= i < |found| && found[i].XID == x
      ensures forall i, j :: 0 <= i < j < |found| ==> found[i].XID != found[j].XID
    {
      found := driver.FindGlobalSessions([GlobalStatus.Begin]);
      forall x | Open(x) ensures exists i :: 0 <= i < |found| && found[i].XID == x {
        var i :| 0 <= i < |found| && found[i] == driver.store.txs[x].session;
      }
    }

    method TimeoutFound(found: seq<GlobalSession>, clock: int -> int, ghost xids: seq<string>)
      requires Valid() && Traced()
      requires forall s :: s in found ==> driver.Found(s) && Open(s.XID)
      requires forall i, j :: 0 <= i < j < |found| ==> found[i].XID != found[j].XID
      requires |xids| == |found| && forall i :: 0 <= i < |found| ==> xids[i] == found[i].XID
      modifies this`past, driver, driver.sessions
      ensures Valid() && Traced() && past.Extends(old(past)) && driver.SameObjects()
      ensures driver.store == TimeoutAll(clock, old(driver.store), xids)
    {
      hide History.Traces;
      var i := 0;
      while i < |found|
        invariant 0 <= i <= |found|
        invariant Valid() && Traced() && past.Extends(old(past)) && driver.SameObjects()
        invariant forall k :: i <= k < |found| ==> driver.Found(found[k]) && Open(found[k].XID)
        invariant driver.store == TimeoutAll(clock, old(driver.store), xids[..i])
      {
        assert xids[..i + 1][..i] == xids[..i];
        ghost var st := driver.store;
        TimeoutTraced(found[i], clock(i));
        forall k | i < k < |found| ensures driver.Found(found[k]) && Open(found[k].XID) {
          assert driver.store.txs[found[k].XID] == st.txs[found[k].XID];
        }
        i := i + 1;
      }
      assert xids[..i] == xids;
    }

    method RetryRollback(gt: GlobalTransaction, now: int, clock: int, oracle: Oracle) returns (ghost order: seq<BranchSession>)
      requires Valid() && Knows(gt) && gt.BranchSessions == Current(gt).branches
      modifies driver, gt.Session`Status, gt`BranchSessions
      ensures Valid() && Knows(gt) && driver.SameObjects() && Enumerates(order, old(Current(gt)).branches)
      ensures
        var n := Retried(cfg, Kind.RetryRollback, now, clock, old(Current(gt)), old(driver.store.locks), order, oracle);
        driver.store == Update(old(driver.store), gt.Session.XID, n.0, n.1)
    {
      UpdateNothing(driver.store, gt.Session.XID);
      order := AnOrder(gt.BranchSessions);
      if gt.Session.Status == RollingBack && !Elapsed(clock, gt.Session.BeginTime, cfg.rollbackDeadSeconds) {
        return;
      }
      if IsRetryTimeout(now, cfg.maxRollbackRetryTimeout, gt.Session.BeginTime) {
        var ok := RemoveTransaction(gt, cfg.rollbackRetryTimeoutUnlockEnable);
        return;
      }
      var done, error;
      done, error, order := DoGlobalRollback(gt, true, oracle);
    }

    method RetryCommit(gt: GlobalTransaction, now: int, ghost clock: int, oracle: Oracle) returns (ghost order: seq<BranchSession>)
      requires Valid() && Knows(gt) && gt.BranchSessions == Current(gt).branches
      modifies driver, gt.Session`Status, gt`BranchSessions
      ensures Valid() && Knows(gt) && driver.SameObjects() && Enumerates(order, old(Current(gt)).branches)
      ensures
        var n := Retried(cfg, Kind.RetryCommit, now, clock, old(Current(gt)), old(driver.store.locks), order, oracle);
        driver.store == Update(old(driver.store), gt.Session.XID, n.0, n.1)
    {
      order := AnOrder(gt.BranchSessions);
      if IsRetryTimeout(now, cfg.maxCommitRetryTimeout, gt.Session.BeginTime) {
        var ok := RemoveTransaction(gt, false);
        return;
      }
      var done, error;
      done, error, order := DoGlobalCommit(gt, true, oracle);
    }

    method RetryAsync(gt: GlobalTransaction, ghost now: int, ghost clock: int, oracle: Oracle) returns (ghost order: seq<BranchSession>)
      requires Valid() && Knows(gt) && gt.BranchSessions == Current(gt).branches && Current(gt).status == AsyncCommitting
      modifies driver, gt.Session`Status, gt`BranchSessions
      ensures Valid() && Knows(gt) && driver.SameObjects() && Enumerates(order, old(Current(gt)).branches)
      ensures
        var n := Retried(cfg, Kind.AsyncCommit, now, clock, old(Current(gt)), old(driver.store.locks), order, oracle);
        driver.store == Update(old(driver.store), gt.Session.XID, n.0, n.1)
    {
      hide Driver.Valid, CommitPass;
      var done, error;
      done, error, order := DoGlobalCommit(gt, true, oracle);
    }

    /** The body of the loop that asks for transactions of this kind. */
    method RetryTransaction(kind: Kind, gt: GlobalTransaction, now: int, clock: int, oracle: Oracle)
      returns (ghost order: seq<BranchSession>)
      requires Valid() && kind.Retries() && Ready(kind, gt)
      modifies driver, gt.Session`Status, gt`BranchSessions
      ensures Valid() && driver.SameObjects() && Enumerates(order, old(Current(gt)).branches)
      ensures driver.store == RetryNext(cfg, kind, now, clock, old(driver.store), gt.Session.XID, order, oracle)
    {
      hide Retried;
      if kind == Kind.RetryRollback {
        order := RetryRollback(gt, now, clock, oracle);
      } else if kind == Kind.RetryCommit {
        order := RetryCommit(gt, now, clock, oracle);
      } else {
        order := RetryAsync(gt, now, clock, oracle);
      }
    }

    method RetryTraced(kind: Kind, gt: GlobalTransaction, now: int, clock: int, oracle: Oracle)
      returns (ghost order: seq<BranchSession>)
      requires Valid() && Traced() && kind.Retries() && Ready(kind, gt)
      modifies this`past, driver, gt.Session`Status, gt`BranchSessions
      ensures Valid() && Traced() && past.Extends(old(past)) && driver.SameObjects()
      ensures Enumerates(order, old(Current(gt)).branches)
      ensures driver.store == RetryNext(cfg, kind, now, clock, old(driver.store), gt.Session.XID, order, oracle)
    {
      hide History.Traces, Retried;
      order := RetryTransaction(kind, gt, now, clock, oracle);
      past := RetryExtends(cfg, old(driver.store), past, gt.Session.XID, kind, now, clock, order, oracle);
    }

    /** `handleRetryRollingBack`, `handleRetryCommitting` and `handleAsyncCommitting`: the same loop over
        the transactions of the connected applications. */
    method HandleRetries(kind: Kind, addressings: seq<string>, now: int, clock: int -> int, oracle: Oracle)
      returns (ghost xids: seq<string>, ghost orders: seq<seq<BranchSession>>)
      requires Valid() && Traced() && kind.Retries()
      modifies this`past, driver, driver.sessions
      ensures Valid() && Traced() && past.Extends(old(past)) && driver.SameObjects()
      ensures forall i, j :: 0 <= i < j < |xids| ==> xids[i] != xids[j]
      ensures forall x :: x in xids <==> old(Waiting(kind, addressings, x))
      ensures |orders| == |xids| && EachEnumerates(orders, BranchSets(old(driver.store), xids))
      ensures driver.store == RetryAll(cfg, kind, now, clock, old(driver.store), xids, orders, oracle)
      ensures EachRetried(cfg, kind, now, clock, old(driver.store), driver.store, xids, orders, oracle)
    {
      hide History.Traces, RetryAll, Driver.Valid, EachRetried, EachEnumerates;
      var found := FindWaiting(kind, addressings);
      xids := seq(|found|, i requires 0 <= i < |found| => found[i].Session.XID);
      forall x ensures x in xids <==> Waiting(kind, addressings, x) {
        if Waiting(kind, addressings, x) {
          var i :| 0 <= i < |found| && found[i].Session.XID == x;
          assert xids[i] == x;
        }
      }
      orders := RetryFound(kind, found, now, clock, oracle, xids);
      RetryEach(cfg, kind, now, clock, old(driver.store), xids, orders, oracle);
    }

    ghost predicate Waiting(kind: Kind, addressings: seq<string>, xid: string)
      reads driver
    {
      Stored(xid) && Wanted(kind, driver.store.txs[xid].status) && driver.store.txs[xid].session.Addressing in addressings
    }

    /** Found by the loop for `kind`, and not changed since. */
    ghost predicate Ready(kind: Kind, gt: GlobalTransaction)
      reads driver, gt
    {
      Knows(gt) && Current(gt).live && gt.BranchSessions == Current(gt).branches && Wanted(kind, Current(gt).status)
    }

    method FindWaiting(kind: Kind, addressings: seq<string>) returns (found: seq<GlobalTransaction>)
      requires Valid() && kind.Retries()
      ensures forall i :: 0 <= i < |found| ==>
          fresh(found[i]) && Ready(kind, found[i]) && Waiting(kind, addressings, found[i].Session.XID)
      ensures forall x :: Waiting(kind, addressings, x) ==> exists i :: 0 <= i < |found| && found[i].Session.XID == x
      ensures forall i, j :: 0 <= i < j < |found| ==> found[i] != found[j] && found[i].Session.XID != found[j].Session.XID
    {
      if |addressings| == 0 {
        return [];
      }
      found := holder.FindGlobalTransactionsWithAddressingIdentities(StatusesOf(kind), addressings);
    }

    method RetryFound(kind: Kind, found: seq<GlobalTransaction>, now: int, clock: int -> int, oracle: Oracle, ghost xids: seq<string>)
      returns (ghost orders: seq<seq<BranchSession>>)
      requires Valid() && Traced() && kind.Retries()
      requires forall i :: 0 <= i < |found| ==> Ready(kind, found[i]) && found[i].BranchSessions == holder.BranchesOf(found[i].Session.XID)
      requires forall i, j :: 0 <= i < j < |found| ==> found[i] != found[j] && found[i].Session.XID != found[j].Session.XID
      requires |xids| == |found| && forall i :: 0 <= i < |found| ==> xids[i] == found[i].Session.XID
      modifies this`past, driver, driver.sessions, (set gt | gt in found)
      ensures Valid() && Traced() && past.Extends(old(past)) && driver.SameObjects()
      ensures |orders| == |xids| && EachEnumerates(orders, BranchSets(old(driver.store), xids))
      ensures driver.store == RetryAll(cfg, kind, now, clock, old(driver.store), xids, orders, oracle)
    {
      hide History.Traces, Enumerates, EachEnumerates, RetryNext, Ready;
      ghost var sets := BranchSets(driver.store, xids);
      EachEnumeratesNone();
      assert sets[..0] == [];
      orders := [];
      var i := 0;
      while i < |found|
        invariant 0 <= i <= |found| && |orders| == i
        invariant Valid() && Traced() && past.Extends(old(past)) && driver.SameObjects()
        invariant forall k :: i <= k < |found| ==> Ready(kind, found[k]) && found[k].BranchSessions == sets[k]
        invariant EachEnumerates(orders, sets[..i])
        invariant driver.store == RetryAll(cfg, kind, now, clock, old(driver.store), xids[..i], orders, oracle)
      {
        var order := RetryNth(kind, found, i, now, clock(i), oracle, sets);
        RetryAllNext(cfg, kind, now, clock, old(driver.store), xids, i, orders, order, oracle);
        EachEnumeratesNext(orders, sets, order);
        orders := orders + [order];
        i := i + 1;
      }
      assert xids[..i] == xids && sets[..i] == sets;
    }

    /** One transaction; the others found stay as they were. */
    method RetryNth(kind: Kind, found: seq<GlobalTransaction>, i: nat, now: int, clock: int, oracle: Oracle, ghost sets: seq<set<BranchSession>>)
      returns (ghost order: seq<BranchSession>)
      requires Valid() && Traced() && kind.Retries() && i < |found| == |sets|
      requires forall k :: i <= k < |found| ==> Ready(kind, found[k]) && found[k].BranchSessions == sets[k]
      requires forall i, j :: 0 <= i < j < |found| ==> found[i] != found[j] && found[i].Session.XID != found[j].Session.XID
      modifies this`past, driver, driver.sessions, found[i]
      ensures Valid() && Traced() && past.Extends(old(past)) && driver.SameObjects()
      ensures Enumerates(order, sets[i])
      ensures forall k :: i < k < |found| ==> Ready(kind, found[k]) && found[k].BranchSessions == sets[k]
      ensures driver.store == RetryNext(cfg, kind, now, clock, old(driver.store), found[i].Session.XID, order, oracle)
    {
      hide History.Traces, Retried, Enumerates;
      ghost var st := driver.store;
      order := RetryTraced(kind, found[i], now, clock, oracle);
      forall k | i < k < |found| ensures Ready(kind, found[k]) && found[k].BranchSessions == sets[k] {
        assert driver.store.txs[found[k].Session.XID] == st.txs[found[k].Session.XID];
      }
    }

    // What the calls so far leave -----------------------------------------------------------------------------

    /** No orphan locks: every held row is in the lock key of an AT branch of the transaction that owns it,
        one that is stored, or, if the transaction is removed, one that its decision missed. */
    lemma HeldRowsAreCovered(k: string)
      requires Valid() && Traced() && cfg.rollbackRetryTimeoutUnlockEnable && k in driver.LockMap
      ensures exists x, b ::
          && x in driver.store.txs && driver.store.txs[x].Tid() == driver.LockMap[k] && Covers(driver.LockMap, k, b)
          && (if Stored(x) then b in driver.store.txs[x].branches else b in past.Missed(x))
    {
      hide History.Traces, History.Missed, Covers;
      RowsCovered(cfg, driver.store, past, k);
    }

    /** `LockQuery` for an open transaction says what `BranchRegister` of an AT branch with that lock key
        would answer in the same state. */
    lemma LockQueryPredicts(b: BranchSession)
      requires Valid() && Traced() && Open(b.XID) && b.TransactionID == driver.store.txs[b.XID].Tid() && b.Type == AT
      ensures LockableRows(driver.LockMap, RowLocker.CollectRowLocks(b.LockKey, b.ResourceID, b.XID).Items())
              <==> Storage.Register(driver.store.txs[b.XID], driver.store.locks, b).0 == Accepted
    {
      LockQueryPredictsRegistration(driver.LockMap, b, driver.store.txs[b.XID].session.Addressing);
      TracedTx(cfg, driver.store, past, b.XID);
      hide LockableRows, Acquire, KnownOk, BranchesOk, TimelyOk, LocksOk;
    }
  }
}
