/** What a final status says of the branches, in every run. */
module Outcomes {
  import opened Apis
  import opened Storage
  import opened Protocol
  import opened Invariant
  import opened RowCover
  import opened Account
  import opened Runs

  /** Before state i, `branchCommit` was called for b of transaction x and returned PhaseTwoCommitted. */
  predicate AnsweredCommitted(acts: seq<Action>, i: nat, x: string, b: BranchSession)
  {
    exists n :: 0 <= n < i && n < |acts| && acts[n].On? && acts[n].xid == x && acts[n].act.Visit?
                && acts[n].act.kind.Commits() && acts[n].act.b == b && acts[n].act.answer == Returned(PhaseTwoCommitted)
  }

  /** Before state i, `branchRollback` was called for b of x and returned PhaseTwoRolledBack. */
  predicate AnsweredRolledBack(acts: seq<Action>, i: nat, x: string, b: BranchSession)
  {
    exists n :: 0 <= n < i && n < |acts| && acts[n].On? && acts[n].xid == x && acts[n].act.Visit?
                && !acts[n].act.kind.Commits() && acts[n].act.b == b && acts[n].act.answer == Returned(PhaseTwoRolledBack)
  }

  /** Before state i, b was reported PhaseOneFailed. */
  predicate ReportedFailed(acts: seq<Action>, i: nat, x: string, b: BranchSession)
  {
    exists n :: 0 <= n < i && n < |acts| && acts[n].On? && acts[n].xid == x && acts[n].act == Report(b, PhaseOneFailed)
  }

  /** What a step adds to the history sets. */
  predicate Records(t: TxState, t': TxState, a: LocalAction, b: BranchSession)
  {
    && (b in t'.committed && b !in t.committed ==>
          a.Visit? && a.kind.Commits() && a.b == b && a.answer == Returned(PhaseTwoCommitted))
    && (b in t'.undone && b !in t.undone ==>
          a.Visit? && !a.kind.Commits() && a.b == b && a.answer == Returned(PhaseTwoRolledBack))
    && (b in t'.failed && b !in t.failed ==> a == Report(b, PhaseOneFailed))
  }

  lemma PassRecords(cfg: Config, t: TxState, locks: LockTable, a: LocalAction, b: BranchSession)
    requires EnabledOn(t, a) && (a.Visit? || a.Spare? || a.Finish?)
    ensures Records(t, ApplyOn(cfg, t, locks, a).0, a, b)
  {
    hide VisitCommit, AnswerRollback, FinishCommit, FinishRollback, Settle;
  }

  lemma OtherRecords(cfg: Config, t: TxState, locks: LockTable, a: LocalAction, b: BranchSession)
    requires EnabledOn(t, a) && !(a.Visit? || a.Spare? || a.Finish?)
    ensures Records(t, ApplyOn(cfg, t, locks, a).0, a, b)
  {
    hide Visited, Ended, After, Begun, HasSaga, AllAsync, IsRetryTimeout, Elapsed, Records;
    var t' := ApplyOn(cfg, t, locks, a).0;
    if a.Start? {
      StartRecords(cfg, t, locks, a.kind, a.now, a.clock);
    }
    RecordsNothing(t, t', a, b);
  }

  lemma RecordsNothing(t: TxState, t': TxState, a: LocalAction, b: BranchSession)
    requires t'.committed == t.committed && t'.undone == t.undone
    requires t'.failed == t.failed || (a.Report? && a.status == PhaseOneFailed && t'.failed == t.failed + {a.b})
    ensures Records(t, t', a, b)
  {
  }

  lemma HistoryStep(cfg: Config, t: TxState, locks: LockTable, a: LocalAction, b: BranchSession)
    requires EnabledOn(t, a)
    ensures Records(t, ApplyOn(cfg, t, locks, a).0, a, b)
  {
    if a.Visit? || a.Spare? || a.Finish? {
      PassRecords(cfg, t, locks, a, b);
    } else {
      OtherRecords(cfg, t, locks, a, b);
    }
  }

  /** The history sets record exactly such answers and reports. */
  lemma {:induction false} HistoryMeans(cfg: Config, ss: seq<State>, acts: seq<Action>, i: nat, x: string, b: BranchSession)
    requires Run(cfg, ss, acts) && i < |ss| && x in ss[i].txs
    ensures b in ss[i].txs[x].committed ==> AnsweredCommitted(acts, i, x, b)
    ensures b in ss[i].txs[x].undone ==> AnsweredRolledBack(acts, i, x, b)
    ensures b in ss[i].txs[x].failed ==> ReportedFailed(acts, i, x, b)
  {
    if i > 0 {
      var s, a := ss[i - 1], acts[i - 1];
      if x in s.txs {
        HistoryMeans(cfg, ss, acts, i - 1, x, b);
        if a.On? && a.xid == x {
          HistoryStep(cfg, s.txs[x], s.locks, a.act, b);
        }
      }
      hide ApplyOn, EnabledOn;
    }
  }

  /** No branch is registered after the decision. */
  lemma EverRegistered(cfg: Config, ss: seq<State>, acts: seq<Action>, i: nat, j: nat, x: string, b: BranchSession)
    requires Run(cfg, ss, acts) && i < |ss| && j < |ss| && x in ss[i].txs && x in ss[j].txs
    requires b in ss[i].txs[x].tx.report && ss[j].txs[x].tx.status != Begin
    ensures b in ss[j].txs[x].tx.report
  {
    hide Run, Stays;
    if i <= j {
      RunEvolves(cfg, ss, acts, i, j, x);
    } else {
      RunEvolves(cfg, ss, acts, j, i, x);
    }
  }

  // Where the branches went ------------------------------------------------------------------------------

  /** At this step an answer takes b out of the stored transaction x: committed, */
  predicate CommitTakes(s: State, a: Action, x: string, b: BranchSession)
  {
    x in s.txs && s.txs[x].tx.live && b in s.txs[x].tx.branches && a.On? && a.xid == x && Commits(a.act, b)
  }

  /** or rolled back. */
  predicate RollbackTakes(s: State, a: Action, x: string, b: BranchSession)
  {
    x in s.txs && s.txs[x].tx.live && b in s.txs[x].tx.branches && a.On? && a.xid == x && RollsBackBranch(a.act, b)
  }

  predicate CommitTook(ss: seq<State>, acts: seq<Action>, j: nat, x: string, b: BranchSession)
  {
    exists n :: 0 <= n < j && n < |ss| && n < |acts| && CommitTakes(ss[n], acts[n], x, b)
  }

  predicate RollbackTook(ss: seq<State>, acts: seq<Action>, j: nat, x: string, b: BranchSession)
  {
    exists n :: 0 <= n < j && n < |ss| && n < |acts| && RollbackTakes(ss[n], acts[n], x, b)
  }

  predicate Takes(s: State, a: Action, x: string, b: BranchSession)
  {
    CommitTakes(s, a, x, b) || RollbackTakes(s, a, x, b)
  }

  /** A branch that was taken out does not come back. */
  lemma StaysOut(cfg: Config, ss: seq<State>, acts: seq<Action>, n: nat, j: nat, x: string, b: BranchSession)
    requires Run(cfg, ss, acts) && n < j < |ss| && Takes(ss[n], acts[n], x, b)
    ensures x in ss[j].txs && b !in ss[j].txs[x].tx.branches
  {
    hide Commits, RollsBackBranch, ApplyOn, EnabledOn, BaseOk, TimelyOk, LocksOk, Stays;
    RunStep(cfg, ss, acts, n);
    RunTx(cfg, ss, acts, n, x);
    Taken(cfg, ss[n].txs[x], ss[n].locks, acts[n].act, b);
    RunEvolves(cfg, ss, acts, n, n + 1, x);
    RunEvolves(cfg, ss, acts, n + 1, j, x);
  }

  /** So it is taken out once. */
  lemma TakenOnce(cfg: Config, ss: seq<State>, acts: seq<Action>, m: nat, n: nat, x: string, b: BranchSession)
    requires Run(cfg, ss, acts) && m < |acts| && n < |acts| && Takes(ss[m], acts[m], x, b) && Takes(ss[n], acts[n], x, b)
    ensures m == n
  {
    hide Commits, RollsBackBranch, Enabled, Apply;
    if m < n {
      StaysOut(cfg, ss, acts, m, n, x, b);
    } else if n < m {
      StaysOut(cfg, ss, acts, n, m, x, b);
    }
  }

  lemma OneWay(cfg: Config, ss: seq<State>, acts: seq<Action>, j: nat, x: string, b: BranchSession)
    requires Run(cfg, ss, acts) && j < |ss|
    ensures !(CommitTook(ss, acts, j, x, b) && RollbackTook(ss, acts, j, x, b))
  {
    hide Run, CommitTakes, RollbackTakes;
    if CommitTook(ss, acts, j, x, b) && RollbackTook(ss, acts, j, x, b) {
      var m :| 0 <= m < j && m < |acts| && CommitTakes(ss[m], acts[m], x, b);
      var n :| 0 <= n < j && n < |acts| && RollbackTakes(ss[n], acts[n], x, b);
      TakenOnce(cfg, ss, acts, m, n, x, b);
      NotBoth(ss[m], acts[m], x, b);
    }
  }

  lemma NotBoth(s: State, a: Action, x: string, b: BranchSession)
    ensures !(CommitTakes(s, a, x, b) && RollbackTakes(s, a, x, b))
  {
  }

  lemma TookLater(ss: seq<State>, acts: seq<Action>, i: nat, j: nat, x: string, b: BranchSession)
    requires i <= j
    ensures CommitTook(ss, acts, i, x, b) ==> CommitTook(ss, acts, j, x, b)
    ensures RollbackTook(ss, acts, i, x, b) ==> RollbackTook(ss, acts, j, x, b)
  {
    hide CommitTakes, RollbackTakes;
  }

  lemma TookNow(ss: seq<State>, acts: seq<Action>, j: nat, x: string, b: BranchSession)
    requires j < |ss| && j < |acts| && Takes(ss[j], acts[j], x, b)
    ensures CommitTook(ss, acts, j + 1, x, b) || RollbackTook(ss, acts, j + 1, x, b)
  {
    hide CommitTakes, RollbackTakes;
  }

  /** What a step does to a branch that is known afterwards, in a transaction that is stored afterwards. */
  lemma StepTakes(cfg: Config, ss: seq<State>, acts: seq<Action>, n: nat, x: string, b: BranchSession)
    requires Run(cfg, ss, acts) && n < |acts| && x in ss[n + 1].txs && ss[n + 1].txs[x].tx.live
    requires b in ss[n + 1].txs[x].tx.report && b !in ss[n + 1].txs[x].tx.branches
    ensures x in ss[n].txs && ss[n].txs[x].tx.live && b in ss[n].txs[x].tx.report
    ensures b in ss[n].txs[x].tx.branches ==> Takes(ss[n], acts[n], x, b)
  {
    hide Commits, RollsBackBranch, ApplyOn, EnabledOn, Stays;
    RunStep(cfg, ss, acts, n);
    hide Run;
    if acts[n].On? && acts[n].xid == x {
      RunEvolves(cfg, ss, acts, n, n + 1, x);
      if b !in ss[n].txs[x].tx.report {
        Registers(cfg, ss[n].txs[x], ss[n].locks, acts[n].act, b);
      } else if b in ss[n].txs[x].tx.branches {
        Leaves(cfg, ss[n].txs[x], ss[n].locks, acts[n].act, b);
      }
    }
  }

  /** Every branch that a stored transaction has lost was taken out by an answer. */
  lemma {:induction false} Gone(cfg: Config, ss: seq<State>, acts: seq<Action>, j: nat, x: string, b: BranchSession)
    requires Run(cfg, ss, acts) && j < |ss| && x in ss[j].txs && ss[j].txs[x].tx.live
    requires b in ss[j].txs[x].tx.report && b !in ss[j].txs[x].tx.branches
    ensures CommitTook(ss, acts, j, x, b) || RollbackTook(ss, acts, j, x, b)
  {
    hide CommitTook, RollbackTook, Takes, Enabled, Apply;
    if j > 0 {
      StepTakes(cfg, ss, acts, j - 1, x, b);
      hide Run;
      if b in ss[j - 1].txs[x].tx.branches {
        TookNow(ss, acts, j - 1, x, b);
      } else {
        Gone(cfg, ss, acts, j - 1, x, b);
        TookLater(ss, acts, j - 1, j, x, b);
      }
    }
  }

  /** In every state of every run: a branch ever registered under a stored session is either still stored, or
      was taken out by one answer, which committed it or rolled it back. */
  lemma OneFate(cfg: Config, ss: seq<State>, acts: seq<Action>, j: nat, x: string, b: BranchSession)
    requires Run(cfg, ss, acts) && j < |ss| && x in ss[j].txs && ss[j].txs[x].tx.live && b in ss[j].txs[x].tx.report
    ensures !(CommitTook(ss, acts, j, x, b) && RollbackTook(ss, acts, j, x, b))
    ensures b in ss[j].txs[x].tx.branches <==> !CommitTook(ss, acts, j, x, b) && !RollbackTook(ss, acts, j, x, b)
  {
    OneWay(cfg, ss, acts, j, x, b);
    hide Run, CommitTakes, RollbackTakes;
    if b !in ss[j].txs[x].tx.branches {
      Gone(cfg, ss, acts, j, x, b);
    } else if CommitTook(ss, acts, j, x, b) {
      var n :| 0 <= n < j && n < |acts| && CommitTakes(ss[n], acts[n], x, b);
      StaysOut(cfg, ss, acts, n, j, x, b);
    } else if RollbackTook(ss, acts, j, x, b) {
      var n :| 0 <= n < j && n < |acts| && RollbackTakes(ss[n], acts[n], x, b);
      StaysOut(cfg, ss, acts, n, j, x, b);
    }
  }

  /** A branch that was taken out was answered, or reported as failed. */
  lemma TookAnswered(cfg: Config, ss: seq<State>, acts: seq<Action>, j: nat, x: string, b: BranchSession)
    requires Run(cfg, ss, acts) && j < |ss|
    ensures CommitTook(ss, acts, j, x, b) ==> AnsweredCommitted(acts, j, x, b)
    ensures RollbackTook(ss, acts, j, x, b) ==> AnsweredRolledBack(acts, j, x, b) || ReportedFailed(acts, j, x, b)
  {
    if RollbackTook(ss, acts, j, x, b) {
      var n :| 0 <= n < j && n < |acts| && RollbackTakes(ss[n], acts[n], x, b);
      if acts[n].act.Spare? {
        SparedWasReported(cfg, ss, acts, n, x, b);
      }
    }
    hide Run;
  }

  lemma SparedWasReported(cfg: Config, ss: seq<State>, acts: seq<Action>, n: nat, x: string, b: BranchSession)
    requires Run(cfg, ss, acts) && n < |acts| && RollbackTakes(ss[n], acts[n], x, b) && acts[n].act.Spare?
    ensures ReportedFailed(acts, n, x, b)
  {
    RunStep(cfg, ss, acts, n);
    RunAccount(cfg, ss, acts, n, x);
    HistoryMeans(cfg, ss, acts, n, x, b);
    hide Run, Apply;
  }

  // Removal ----------------------------------------------------------------------------------------------

  predicate IsDone(s: GlobalStatus) { s == Committed || s == RolledBack || s == TimeoutRolledBack }

  /** This step removes x, as committed or rolled back. */
  predicate RemovesAsDone(ss: seq<State>, acts: seq<Action>, j: nat, x: string)
  {
    && j < |acts| && j + 1 < |ss| && x in ss[j].txs && x in ss[j + 1].txs
    && ss[j].txs[x].tx.live && !ss[j + 1].txs[x].tx.live && IsDone(ss[j + 1].txs[x].tx.status)
  }

  lemma RemovingStep(cfg: Config, ss: seq<State>, acts: seq<Action>, j: nat, x: string)
    requires Run(cfg, ss, acts) && j < |acts| && x in ss[j].txs && x in ss[j + 1].txs
    requires ss[j].txs[x].tx.live && !ss[j + 1].txs[x].tx.live
    ensures acts[j].On? && acts[j].xid == x && EnabledOn(ss[j].txs[x], acts[j].act)
    ensures ss[j + 1].txs[x] == ApplyOn(cfg, ss[j].txs[x], ss[j].locks, acts[j].act).0
    ensures ss[j + 1].txs[x].tx.report.Keys == ss[j].txs[x].tx.report.Keys
  {
    assert Enabled(ss[j], acts[j]) && ss[j + 1] == Apply(cfg, ss[j], acts[j]);
    hide ApplyOn, EnabledOn, Run, TimelyOk, BaseOk, LocksOk;
    RunTx(cfg, ss, acts, j, x);
    RunStepEvolves(cfg, ss, acts, j, x);
    if ss[j].txs[x].tx.status == Begin {
      OpenStays(cfg, ss[j].txs[x], ss[j].locks, acts[j].act);
    }
  }

  lemma OpenStays(cfg: Config, t: TxState, locks: LockTable, a: LocalAction)
    requires BaseOk(t) && EnabledOn(t, a) && t.tx.status == Begin
    ensures ApplyOn(cfg, t, locks, a).0.tx.live
  {
    hide BranchesOk;
  }

  lemma VisitNotDone(t: TxState, locks: LockTable, kind: Kind, b: BranchSession, answer: Answer)
    requires LiveStatus(t.tx.status) && EnabledOn(t, Visit(kind, b, answer))
    ensures !IsDone(Visited(t, locks, kind, b, answer).0.tx.status)
  {
    hide AnswerRollback, VisitCommit, IsTimeoutStatus;
    AnswerStatus(t.tx, locks, t.jobs[kind].work, b, kind.Retries(), answer);
    CommitStatus(t.tx, locks, t.jobs[kind].work, b, kind.Retries(), answer);
  }

  lemma StartNotDone(cfg: Config, t: TxState, locks: LockTable, kind: Kind, now: int, clock: int)
    requires LiveStatus(t.tx.status) && EnabledOn(t, Start(kind, now, clock))
    ensures !IsDone(Begun(cfg, t, locks, kind, now, clock).0.tx.status)
  {
    hide Begun, IsRetryTimeout, Elapsed, Released;
    StartCases(cfg, t, locks, kind, now, clock);
  }

  lemma EndStatus(tx: Tx, locks: LockTable, w: Work)
    ensures
      var s := FinishCommit(tx, locks, w).tx.status;
      if tx.live && tx.branches != {} then s == tx.status else s == Committed
    ensures
      var s := FinishRollback(tx, locks, w).tx.status;
      if tx.live && tx.branches != {} then s == tx.status else s == DoneStatus(tx.status)
  {
    hide IsTimeoutStatus, Released, ClaimsOf;
  }

  lemma FinishDone(t: TxState, locks: LockTable, kind: Kind)
    requires LiveStatus(t.tx.status) && kind in t.jobs && IsDone(Ended(t, locks, kind).0.tx.status)
    ensures t.tx.live ==> t.tx.branches == {}
    ensures Ended(t, locks, kind).0.tx.status == if kind.Commits() then Committed else DoneStatus(t.tx.status)
  {
    EndStatus(t.tx, locks, t.jobs[kind].work);
    hide FinishCommit, FinishRollback, DoneStatus;
  }

  /** Only the end of a pass writes such a status, onto a session without stored branches. */
  lemma OnlyFinishes(cfg: Config, t: TxState, locks: LockTable, a: LocalAction)
    requires LiveStatus(t.tx.status) && EnabledOn(t, a) && IsDone(ApplyOn(cfg, t, locks, a).0.tx.status)
    ensures a.Finish? && (t.tx.live ==> t.tx.branches == {})
    ensures ApplyOn(cfg, t, locks, a).0.tx.status == if a.kind.Commits() then Committed else DoneStatus(t.tx.status)
  {
    hide Begun, Visited, Ended, DoneStatus, Released, BranchClaims;
    match a
    case Start(kind, now, clock) => StartNotDone(cfg, t, locks, kind, now, clock);
    case Visit(kind, b, answer) => VisitNotDone(t, locks, kind, b, answer);
    case Finish(kind) => FinishDone(t, locks, kind);
    case _ =>
  }

  lemma RemovedByFinish(cfg: Config, ss: seq<State>, acts: seq<Action>, j: nat, x: string)
    requires Run(cfg, ss, acts) && RemovesAsDone(ss, acts, j, x)
    ensures acts[j].On? && acts[j].xid == x && acts[j].act.Finish? && ss[j].txs[x].tx.branches == {}
    ensures ss[j + 1].txs[x].tx.status == if acts[j].act.kind.Commits() then Committed else DoneStatus(ss[j].txs[x].tx.status)
    ensures ss[j + 1].txs[x].tx.report.Keys == ss[j].txs[x].tx.report.Keys && ss[j + 1].txs[x].late == ss[j].txs[x].late
  {
    RemovingStep(cfg, ss, acts, j, x);
    RunAccount(cfg, ss, acts, j, x);
    OnlyFinishes(cfg, ss[j].txs[x], ss[j].locks, acts[j].act);
    LateIs(cfg, ss[j].txs[x], ss[j].locks, acts[j].act);
    hide Run, ApplyOn, EnabledOn, Accounted, FailuresKnown, LiveStatus;
  }

  // Outcomes ---------------------------------------------------------------------------------------------

  /** Before state j, timeoutCheck wrote over a decision to commit or to roll back. */
  predicate WroteTooLate(ss: seq<State>, acts: seq<Action>, j: nat, x: string)
  {
    exists n :: 0 <= n < j && n < |acts| && n < |ss| && x in ss[n].txs && acts[n].On? && acts[n].xid == x
                && acts[n].act.Timeout? && TooLate(ss[n].txs[x].tx, acts[n].act.now)
  }

  lemma LateMeans(cfg: Config, ss: seq<State>, acts: seq<Action>, j: nat, x: string)
    requires Run(cfg, ss, acts) && j < |ss| && x in ss[j].txs
    ensures ss[j].txs[x].late <==> WroteTooLate(ss, acts, j, x)
  {
    hide TooLate, Enabled;
    if ss[j].txs[x].late {
      var n := LateStep(cfg, ss, acts, j, x);
    } else if WroteTooLate(ss, acts, j, x) {
      var n :| 0 <= n < j && x in ss[n].txs && acts[n].On? && acts[n].xid == x && acts[n].act.Timeout? && TooLate(ss[n].txs[x].tx, acts[n].act.now);
      StaysLate(cfg, ss, acts, n, j, x);
    }
  }

  lemma StaysLate(cfg: Config, ss: seq<State>, acts: seq<Action>, n: nat, j: nat, x: string)
    requires Run(cfg, ss, acts) && n < j < |ss| && x in ss[n].txs && acts[n].On? && acts[n].xid == x && acts[n].act.Timeout?
    requires TooLate(ss[n].txs[x].tx, acts[n].act.now)
    ensures x in ss[j].txs && ss[j].txs[x].late
  {
    hide TooLate, ApplyOn, EnabledOn, Stays;
    RunStep(cfg, ss, acts, n);
    LateIs(cfg, ss[n].txs[x], ss[n].locks, acts[n].act);
    RunEvolves(cfg, ss, acts, n + 1, j, x);
  }

  /** While timeoutCheck is never too late, branches are taken out in the direction of the decision. */
  lemma TookInDirection(cfg: Config, ss: seq<State>, acts: seq<Action>, j: nat, x: string, b: BranchSession)
    requires Run(cfg, ss, acts) && j < |ss| && x in ss[j].txs && !ss[j].txs[x].late
    ensures CommitTook(ss, acts, j, x, b) ==> FamilyOf(ss[j].txs[x].tx.status) == ToCommit
    ensures RollbackTook(ss, acts, j, x, b) ==> RollsBack(ss[j].txs[x].tx.status)
  {
    hide Run, CommitTakes, RollbackTakes, FamilyOf;
    if CommitTook(ss, acts, j, x, b) {
      var n :| 0 <= n < j && n < |acts| && CommitTakes(ss[n], acts[n], x, b);
      DirectionAt(cfg, ss, acts, n, j, x, b);
    }
    if RollbackTook(ss, acts, j, x, b) {
      var n :| 0 <= n < j && n < |acts| && RollbackTakes(ss[n], acts[n], x, b);
      DirectionAt(cfg, ss, acts, n, j, x, b);
    }
  }

  lemma DirectionAt(cfg: Config, ss: seq<State>, acts: seq<Action>, n: nat, j: nat, x: string, b: BranchSession)
    requires Run(cfg, ss, acts) && n < j < |ss| && x in ss[j].txs && !ss[j].txs[x].late
    ensures CommitTakes(ss[n], acts[n], x, b) ==> FamilyOf(ss[j].txs[x].tx.status) == ToCommit
    ensures RollbackTakes(ss[n], acts[n], x, b) ==> RollsBack(ss[j].txs[x].tx.status)
  {
    if Takes(ss[n], acts[n], x, b) {
      RunStep(cfg, ss, acts, n);
      hide Run, BaseOk, TimelyOk, LocksOk, FamilyOf, Apply;
      RunEvolves(cfg, ss, acts, n, j, x);
      RunTx(cfg, ss, acts, n, x);
      OneDecision(cfg, ss, acts, n, j, x) by { HasJob(ss[n].txs[x], acts[n].act.kind); }
      if acts[n].act.kind.Commits() {
        OnePass(ss[n].txs[x], acts[n].act.kind);
        CommitFamily(ss[n].txs[x].tx.status);
      } else {
        HasRollback(ss[n].txs[x], acts[n].act.kind);
      }
    }
  }

  lemma CommitFamily(s: GlobalStatus)
    requires CommitPhase(s)
    ensures FamilyOf(s) == ToCommit
  {
  }

  /** Every outcome, in every run. When a session is removed as committed or rolled back, every branch ever
      registered under it was taken out of the store by one answer. So one was not committed if and only if
      a rollback took it out, and not rolled back if and only if a commit did. An outcome that goes against
      one of its branches takes a write of timeoutCheck over the decision. */
  lemma Outcome(cfg: Config, ss: seq<State>, acts: seq<Action>, i: nat, j: nat, x: string, b: BranchSession)
    requires Run(cfg, ss, acts) && RemovesAsDone(ss, acts, j, x) && i < |ss| && x in ss[i].txs && b in ss[i].txs[x].tx.report
    ensures !CommitTook(ss, acts, j, x, b) <==> RollbackTook(ss, acts, j, x, b)
    ensures CommitTook(ss, acts, j, x, b) ==> AnsweredCommitted(acts, j, x, b)
    ensures RollbackTook(ss, acts, j, x, b) ==> AnsweredRolledBack(acts, j, x, b) || ReportedFailed(acts, j, x, b)
    ensures ss[j + 1].txs[x].tx.status == Committed && RollbackTook(ss, acts, j, x, b) ==> WroteTooLate(ss, acts, j, x)
    ensures ss[j + 1].txs[x].tx.status != Committed && CommitTook(ss, acts, j, x, b) ==> WroteTooLate(ss, acts, j, x)
  {
    hide Run, CommitTook, RollbackTook, AnsweredCommitted, AnsweredRolledBack, ReportedFailed, WroteTooLate;
    RemovedByFinish(cfg, ss, acts, j, x);
    RemovedDecided(cfg, ss, acts, j, x);
    EverRegistered(cfg, ss, acts, i, j + 1, x, b);
    OneFate(cfg, ss, acts, j, x, b);
    TookAnswered(cfg, ss, acts, j, x, b);
    LateMeans(cfg, ss, acts, j, x);
    if !ss[j].txs[x].late {
      TookLater(ss, acts, j, j + 1, x, b);
      TookInDirection(cfg, ss, acts, j + 1, x, b);
    }
  }

  lemma RemovedDecided(cfg: Config, ss: seq<State>, acts: seq<Action>, j: nat, x: string)
    requires Run(cfg, ss, acts) && RemovesAsDone(ss, acts, j, x)
    ensures ss[j + 1].txs[x].tx.status != Begin
    ensures ss[j + 1].txs[x].tx.status == Committed <==> !RollsBack(ss[j + 1].txs[x].tx.status)
  {
  }

  /** The step that wrote Committed also removed the session. */
  lemma {:induction false} CommittedAt(cfg: Config, ss: seq<State>, acts: seq<Action>, j: nat, x: string) returns (m: nat)
    requires Run(cfg, ss, acts) && j < |ss| && x in ss[j].txs && ss[j].txs[x].tx.status == Committed && !ss[j].txs[x].late
    ensures m < j && RemovesAsDone(ss, acts, m, x) && ss[m + 1].txs[x].tx.status == Committed && !ss[m].txs[x].late
  {
    RunStep(cfg, ss, acts, j - 1);
    hide Run, ApplyOn, EnabledOn, Stays;
    var t := ss[j - 1].txs[x];
    RunEvolves(cfg, ss, acts, j - 1, j, x);
    if t.tx.status == Committed {
      m := CommittedAt(cfg, ss, acts, j - 1, x);
    } else {
      m := j - 1;
      RunTx(cfg, ss, acts, m, x);
      WritesCommitted(cfg, t, ss[m].locks, acts[m].act);
    }
  }

  lemma FinishCommits(t: TxState, locks: LockTable, kind: Kind)
    requires BaseOk(t) && TimelyOk(t) && kind in t.jobs && t.tx.status != Committed && Ended(t, locks, kind).0.tx.status == Committed
    ensures t.tx.live && !Ended(t, locks, kind).0.tx.live
  {
    hide IsTimeoutStatus, Released, ClaimsOf, BaseOk, TimelyOk;
    if kind.Commits() {
      OnePass(t, kind);
    }
  }

  lemma VisitNotCommitted(t: TxState, locks: LockTable, kind: Kind, b: BranchSession, answer: Answer)
    requires kind in t.jobs && t.tx.status != Committed
    ensures Visited(t, locks, kind, b, answer).0.tx.status != Committed
  {
    hide AnswerRollback, VisitCommit, IsTimeoutStatus;
    AnswerStatus(t.tx, locks, t.jobs[kind].work, b, kind.Retries(), answer);
    CommitStatus(t.tx, locks, t.jobs[kind].work, b, kind.Retries(), answer);
  }

  lemma WritesCommitted(cfg: Config, t: TxState, locks: LockTable, a: LocalAction)
    requires BaseOk(t) && TimelyOk(t) && EnabledOn(t, a)
    requires t.tx.status != Committed && ApplyOn(cfg, t, locks, a).0.tx.status == Committed
    ensures t.tx.live && !ApplyOn(cfg, t, locks, a).0.tx.live
  {
    hide Begun, Visited, Ended, BaseOk, TimelyOk, Released, BranchClaims;
    match a
    case Start(kind, now, clock) => StartCases(cfg, t, locks, kind, now, clock);
    case Visit(kind, b, answer) => VisitNotCommitted(t, locks, kind, b, answer);
    case Finish(kind) => FinishCommits(t, locks, kind);
    case _ =>
  }

  lemma AnsweredLater(acts: seq<Action>, i: nat, j: nat, x: string, b: BranchSession)
    requires i <= j && AnsweredCommitted(acts, i, x, b)
    ensures AnsweredCommitted(acts, j, x, b)
  {
  }

  /** So, while timeoutCheck never writes over the decision, Committed means that `branchCommit` returned
      PhaseTwoCommitted for every branch ever registered, whatever copies the handlers had. */
  lemma CommittedMeansAllCommitted(cfg: Config, ss: seq<State>, acts: seq<Action>, i: nat, j: nat, x: string, b: BranchSession)
    requires Run(cfg, ss, acts) && i < |ss| && j < |ss| && x in ss[i].txs && x in ss[j].txs
    requires b in ss[i].txs[x].tx.report && ss[j].txs[x].tx.status == Committed && !WroteTooLate(ss, acts, j, x)
    ensures AnsweredCommitted(acts, j, x, b)
  {
    LateMeans(cfg, ss, acts, j, x);
    var m := CommittedAt(cfg, ss, acts, j, x);
    LateMeans(cfg, ss, acts, m, x);
    hide Run, CommitTook, RollbackTook, AnsweredCommitted, AnsweredRolledBack, ReportedFailed, WroteTooLate;
    Outcome(cfg, ss, acts, i, m, x, b);
    AnsweredLater(acts, m, j, x, b);
  }

  /** And a session is removed as rolled back only if every branch ever registered was reported failed in
      phase one or `branchRollback` returned PhaseTwoRolledBack for it. */
  lemma RolledBackMeansAllUndone(cfg: Config, ss: seq<State>, acts: seq<Action>, i: nat, j: nat, x: string, b: BranchSession)
    requires Run(cfg, ss, acts) && RemovesAsDone(ss, acts, j, x) && i < |ss| && x in ss[i].txs && b in ss[i].txs[x].tx.report
    requires ss[j + 1].txs[x].tx.status != Committed && !WroteTooLate(ss, acts, j, x)
    ensures AnsweredRolledBack(acts, j, x, b) || ReportedFailed(acts, j, x, b)
  {
    hide Run, CommitTook, RollbackTook, AnsweredCommitted, AnsweredRolledBack, ReportedFailed, WroteTooLate;
    Outcome(cfg, ss, acts, i, j, x, b);
  }

  // After the removal ------------------------------------------------------------------------------------

  /** The passes that are found or under way. */
  function Pending(t: TxState): set<Kind> { t.jobs.Keys + t.picked }

  lemma BegunPending(cfg: Config, t: TxState, locks: LockTable, kind: Kind, now: int, clock: int)
    requires kind in t.jobs
    ensures Pending(Begun(cfg, t, locks, kind, now, clock).0) <= Pending(t)
  {
    hide HasSaga, AllAsync, IsRetryTimeout, Elapsed, Released;
  }

  lemma AfterPending(t: TxState, t1: TxState, kind: Kind, n: Next)
    requires kind in t.jobs && t1.jobs == t.jobs && t1.picked == t.picked
    ensures Pending(After(t1, kind, n).0) <= Pending(t)
  {
  }

  /** No pass is found for a session that is gone. */
  lemma NoNewPass(cfg: Config, t: TxState, locks: LockTable, a: LocalAction)
    requires EnabledOn(t, a) && BaseOk(t) && !t.tx.live
    ensures Pending(ApplyOn(cfg, t, locks, a).0) <= Pending(t)
  {
    hide Begun, After, Settle, VisitCommit, AnswerRollback, FinishCommit, FinishRollback, KnownOk, BranchesOk, Released;
    match a
    case Start(kind, now, clock) => BegunPending(cfg, t, locks, kind, now, clock);
    case Visit(kind, b, answer) =>
      var w := t.jobs[kind].work;
      if kind.Commits() {
        AfterPending(t, t.(committed := if answer == Returned(PhaseTwoCommitted) then t.committed + {b} else t.committed), kind,
                     VisitCommit(t.tx, locks, w, b, kind.Retries(), answer));
      } else {
        AfterPending(t, t.(undone := if answer == Returned(PhaseTwoRolledBack) then t.undone + {b} else t.undone), kind,
                     AnswerRollback(t.tx, locks, w, b, kind.Retries(), answer));
      }
    case Spare(kind, b) => AfterPending(t, t, kind, Settle(t.tx, locks, t.jobs[kind].work, b));
    case Finish(kind) =>
      AfterPending(t, t, kind, if kind.Commits() then FinishCommit(t.tx, locks, t.jobs[kind].work) else FinishRollback(t.tx, locks, t.jobs[kind].work));
    case _ =>
  }

  lemma StepPending(cfg: Config, ss: seq<State>, acts: seq<Action>, n: nat, x: string)
    requires Run(cfg, ss, acts) && n < |acts| && x in ss[n].txs && !ss[n].txs[x].tx.live
    ensures x in ss[n + 1].txs && !ss[n + 1].txs[x].tx.live && Pending(ss[n + 1].txs[x]) <= Pending(ss[n].txs[x])
  {
    RunStep(cfg, ss, acts, n);
    RunEvolves(cfg, ss, acts, n, n + 1, x);
    RunTx(cfg, ss, acts, n, x);
    hide Run, Pending, ApplyOn, EnabledOn, BaseOk, TimelyOk, LocksOk, Stays;
    if acts[n].On? && acts[n].xid == x {
      NoNewPass(cfg, ss[n].txs[x], ss[n].locks, acts[n].act);
    }
  }

  lemma {:induction false} PendingShrinks(cfg: Config, ss: seq<State>, acts: seq<Action>, r: nat, n: nat, x: string)
    requires Run(cfg, ss, acts) && r <= n < |ss| && x in ss[r].txs && !ss[r].txs[x].tx.live
    ensures x in ss[n].txs && !ss[n].txs[x].tx.live && Pending(ss[n].txs[x]) <= Pending(ss[r].txs[x])
    decreases n
  {
    hide Enabled, Apply, Pending;
    if r < n {
      PendingShrinks(cfg, ss, acts, r, n - 1, x);
      StepPending(cfg, ss, acts, n - 1, x);
    }
  }

  /** A final status written onto a session that is gone. */
  predicate IsFinal(s: GlobalStatus) { IsDone(s) || s == CommitFailed || s == RollbackFailed || s == TimeoutRollbackFailed }

  lemma FinishGone(t: TxState, locks: LockTable, kind: Kind)
    requires kind in t.jobs && !t.tx.live
    ensures Ended(t, locks, kind).0.tx.status == if kind.Commits() then Committed else DoneStatus(t.tx.status)
  {
    EndStatus(t.tx, locks, t.jobs[kind].work);
    hide FinishCommit, FinishRollback, DoneStatus;
  }

  lemma OthersKeepFinal(cfg: Config, t: TxState, locks: LockTable, a: LocalAction)
    requires EnabledOn(t, a) && !a.Visit? && !a.Finish?
    ensures var s := ApplyOn(cfg, t, locks, a).0.tx.status; IsFinal(s) ==> s == t.tx.status
  {
    hide Begun, Released, BranchClaims;
    if a.Start? {
      StartCases(cfg, t, locks, a.kind, a.now, a.clock);
    }
  }

  lemma VisitGivesUpForGood(t: TxState, locks: LockTable, kind: Kind, b: BranchSession, answer: Answer)
    requires kind in t.jobs
    ensures
      var s := Visited(t, locks, kind, b, answer).0.tx.status;
      IsFinal(s) && s != t.tx.status ==> answer == Returned(PhaseTwoCommitFailedCanNotRetry) || answer == Returned(PhaseTwoRollbackFailedCanNotRetry)
  {
    hide AnswerRollback, VisitCommit, IsTimeoutStatus;
    AnswerStatus(t.tx, locks, t.jobs[kind].work, b, kind.Retries(), answer);
    CommitStatus(t.tx, locks, t.jobs[kind].work, b, kind.Retries(), answer);
  }

  /** A session that is gone gets another final status only from a pass that was found or under way when it
      went: one that finishes, or one that meets an answer that cannot be retried. And one that finishes does
      write its own. */
  lemma FinalAfterRemoval(cfg: Config, ss: seq<State>, acts: seq<Action>, r: nat, n: nat, x: string)
    requires Run(cfg, ss, acts) && r <= n < |acts| && x in ss[r].txs && !ss[r].txs[x].tx.live
    ensures x in ss[n].txs && x in ss[n + 1].txs
    ensures
      var s, s' := ss[n].txs[x].tx.status, ss[n + 1].txs[x].tx.status;
      && (IsFinal(s') && s' != s ==>
            && acts[n].On? && acts[n].xid == x && (acts[n].act.Finish? || acts[n].act.Visit?) && acts[n].act.kind in Pending(ss[r].txs[x])
            && (acts[n].act.Visit? ==> acts[n].act.answer == Returned(PhaseTwoCommitFailedCanNotRetry)
                                       || acts[n].act.answer == Returned(PhaseTwoRollbackFailedCanNotRetry)))
      && (acts[n].On? && acts[n].xid == x && acts[n].act.Finish? ==>
            acts[n].act.kind in Pending(ss[r].txs[x]) && s' == if acts[n].act.kind.Commits() then Committed else DoneStatus(s))
  {
    PendingShrinks(cfg, ss, acts, r, n, x);
    RunStep(cfg, ss, acts, n);
    hide Run, Visited, Ended, Begun, IsFinal, DoneStatus;
    RunEvolves(cfg, ss, acts, n, n + 1, x);
    if acts[n].On? && acts[n].xid == x {
      var t, a := ss[n].txs[x], acts[n].act;
      match a
      case Visit(kind, b, answer) => VisitGivesUpForGood(t, ss[n].locks, kind, b, answer);
      case Finish(kind) => FinishGone(t, ss[n].locks, kind);
      case _ =>
        OthersKeepFinal(cfg, t, ss[n].locks, a);
        hide ApplyOn;
    }
  }

  lemma {:induction false} RemovedAt(cfg: Config, ss: seq<State>, acts: seq<Action>, j: nat, x: string) returns (r: nat)
    requires Run(cfg, ss, acts) && j < |ss| && x in ss[j].txs && !ss[j].txs[x].tx.live
    ensures r < j && r < |acts| && x in ss[r].txs && x in ss[r + 1].txs && ss[r].txs[x].tx.live && !ss[r + 1].txs[x].tx.live
  {
    RunStep(cfg, ss, acts, j - 1);
    hide Run, ApplyOn, EnabledOn;
    if ss[j - 1].txs[x].tx.live {
      r := j - 1;
    } else {
      r := RemovedAt(cfg, ss, acts, j - 1, x);
    }
  }

  /** Nothing is taken out of a session that is gone. */
  lemma TakenBefore(cfg: Config, ss: seq<State>, acts: seq<Action>, r: nat, n: nat, x: string, b: BranchSession)
    requires Run(cfg, ss, acts) && r < |acts| && n < |acts| && Takes(ss[n], acts[n], x, b)
    requires x in ss[r + 1].txs && !ss[r + 1].txs[x].tx.live
    ensures n < r
  {
    hide Commits, RollsBackBranch, ApplyOn, EnabledOn, BaseOk, TimelyOk, LocksOk;
    if n == r {
      RunStep(cfg, ss, acts, n);
      RunTx(cfg, ss, acts, n, x);
      Taken(cfg, ss[n].txs[x], ss[n].locks, acts[n].act, b);
    } else if n > r {
      PendingShrinks(cfg, ss, acts, r + 1, n, x);
    }
  }

  lemma TookBefore(cfg: Config, ss: seq<State>, acts: seq<Action>, r: nat, j: nat, x: string, b: BranchSession)
    requires Run(cfg, ss, acts) && r < j < |ss| && x in ss[r + 1].txs && !ss[r + 1].txs[x].tx.live
    ensures CommitTook(ss, acts, j, x, b) <==> CommitTook(ss, acts, r, x, b)
    ensures RollbackTook(ss, acts, j, x, b) <==> RollbackTook(ss, acts, r, x, b)
  {
    TookLater(ss, acts, r, j, x, b);
    hide Run, CommitTakes, RollbackTakes;
    if CommitTook(ss, acts, j, x, b) {
      var n :| 0 <= n < j && n < |acts| && CommitTakes(ss[n], acts[n], x, b);
      TakenBefore(cfg, ss, acts, r, n, x, b);
    }
    if RollbackTook(ss, acts, j, x, b) {
      var n :| 0 <= n < j && n < |acts| && RollbackTakes(ss[n], acts[n], x, b);
      TakenBefore(cfg, ss, acts, r, n, x, b);
    }
  }

  lemma SameReport(cfg: Config, ss: seq<State>, acts: seq<Action>, r: nat, j: nat, x: string)
    requires Run(cfg, ss, acts) && r < j < |ss| && x in ss[r].txs && x in ss[r + 1].txs
    requires ss[r].txs[x].tx.live && !ss[r + 1].txs[x].tx.live
    ensures x in ss[j].txs && ss[j].txs[x].tx.report.Keys == ss[r].txs[x].tx.report.Keys
    ensures ss[r].txs[x].tx.branches <= ss[j].txs[x].tx.report.Keys
  {
    RemovingStep(cfg, ss, acts, r, x);
    RunTx(cfg, ss, acts, r, x);
    RunTx(cfg, ss, acts, r + 1, x);
    RunEvolves(cfg, ss, acts, r + 1, j, x);
    hide Run, ApplyOn, EnabledOn, Stays, KnownOk, TimelyOk, LocksOk;
  }

  /** The branches of a session that is gone were all taken out by answers if and only if none was stored
      when it was removed. */
  lemma GoneWithNone(cfg: Config, ss: seq<State>, acts: seq<Action>, r: nat, j: nat, x: string)
    requires Run(cfg, ss, acts) && r < j < |ss| && x in ss[r].txs && x in ss[r + 1].txs
    requires ss[r].txs[x].tx.live && !ss[r + 1].txs[x].tx.live
    ensures x in ss[j].txs
    ensures (forall b :: b in ss[j].txs[x].tx.report ==> CommitTook(ss, acts, j, x, b) || RollbackTook(ss, acts, j, x, b))
            <==> ss[r].txs[x].tx.branches == {}
  {
    SameReport(cfg, ss, acts, r, j, x);
    hide Run, CommitTook, RollbackTook;
    forall b | b in ss[j].txs[x].tx.report
      ensures CommitTook(ss, acts, j, x, b) || RollbackTook(ss, acts, j, x, b) <==> b !in ss[r].txs[x].tx.branches
    {
      OneFate(cfg, ss, acts, r, x, b);
      TookBefore(cfg, ss, acts, r, j, x, b);
    }
    assert ss[r].txs[x].tx.branches == {} <==> forall b :: b in ss[j].txs[x].tx.report ==> b !in ss[r].txs[x].tx.branches;
  }

  /** What RolledBack says of a session that is gone, whoever reads it, while timeoutCheck never wrote over
      the decision: that every branch was rolled back or reported failed before its removal, if and only if
      none was stored when it was removed. */
  lemma RolledBackRead(cfg: Config, ss: seq<State>, acts: seq<Action>, j: nat, x: string) returns (r: nat)
    requires Run(cfg, ss, acts) && j < |ss| && x in ss[j].txs && !WroteTooLate(ss, acts, j, x)
    requires ss[j].txs[x].tx.status == RolledBack || ss[j].txs[x].tx.status == TimeoutRolledBack
    ensures r < j && x in ss[r].txs && x in ss[r + 1].txs && ss[r].txs[x].tx.live && !ss[r + 1].txs[x].tx.live
    ensures (forall b :: b in ss[j].txs[x].tx.report ==> RollbackTook(ss, acts, j, x, b)) <==> ss[r].txs[x].tx.branches == {}
  {
    LateMeans(cfg, ss, acts, j, x);
    RunAccount(cfg, ss, acts, j, x);
    hide Run, CommitTook, RollbackTook, WroteTooLate, Accounted, FailuresKnown;
    r := RemovedAt(cfg, ss, acts, j, x);
    GoneWithNone(cfg, ss, acts, r, j, x);
    forall b | b in ss[j].txs[x].tx.report ensures !CommitTook(ss, acts, j, x, b) {
      TookInDirection(cfg, ss, acts, j, x, b);
    }
  }
}
