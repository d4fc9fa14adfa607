/** What holds in every state of every run of the coordinator. */
module Runs {
  import opened Apis
  import opened Storage
  import opened Protocol
  import opened Invariant
  import opened RowCover
  import opened Account

  predicate Distinct(s: State)
  {
    && (forall x :: x in s.txs ==> s.txs[x].tx.session.XID == x)
    && (forall x, y :: x in s.txs && y in s.txs && s.txs[x].tx.Tid() == s.txs[y].tx.Tid() ==> x == y)
  }

  predicate TxOk(t: TxState) { BaseOk(t) && AccountOk(t) && (!t.late ==> TimelyOk(t)) }

  predicate TxsOk(s: State) { forall x :: x in s.txs ==> TxOk(s.txs[x]) }

  predicate AllLocksOk(cfg: Config, s: State) { forall x :: x in s.txs ==> LocksOk(cfg, s.txs[x], s.locks) }

  predicate Owned(s: State)
  {
    forall k :: k in s.locks ==> exists x :: x in s.txs && s.txs[x].tx.Tid() == s.locks[k]
  }

  predicate Inv(cfg: Config, s: State)
  {
    Distinct(s) && TxsOk(s) && AllLocksOk(cfg, s) && Owned(s)
  }

  /** What no step undoes in one transaction, */
  predicate Grows(t: TxState, t': TxState)
  {
    && t'.tx.session == t.tx.session
    && t.tx.report.Keys <= t'.tx.report.Keys
    && (!t.tx.live ==> !t'.tx.live)
    && (t.late ==> t'.late) && t.copies <= t'.copies
    && (t.tx.status != Begin ==>
          && t'.tx.status != Begin && t'.tx.branches <= t.tx.branches && t'.tx.report.Keys == t.tx.report.Keys
          && t'.missed == t.missed && t'.committing == t.committing)
  }

  /** and what none undoes unless timeoutCheck writes too late. */
  predicate Stays(t: TxState, t': TxState)
  {
    && (t.tx.status != Begin ==> FamilyOf(t'.tx.status) == FamilyOf(t.tx.status))
    && (t.tx.status == AsyncCommitting && AllAsync(t.tx.branches) ==> t'.tx.status == AsyncCommitting || t'.tx.status == Committed)
    && (t.tx.status == Committed ==> t'.tx.status == Committed)
  }

  predicate Evolves(t: TxState, t': TxState)
  {
    Grows(t, t') && (!t'.late ==> Stays(t, t'))
  }

  lemma PassGrows(t: TxState, t1: TxState, kind: Kind, n: Next)
    requires BaseOk(t) && kind in t.jobs && PassStep(t, kind, n)
    requires t1 == t.(committed := t1.committed, undone := t1.undone)
    ensures Grows(t, After(t1, kind, n).0)
  {
    HasJob(t, kind);
  }

  lemma StepGrows(cfg: Config, t: TxState, locks: LockTable, a: LocalAction)
    requires BaseOk(t) && EnabledOn(t, a)
    ensures Grows(t, ApplyOn(cfg, t, locks, a).0)
  {
    hide BaseOk, Grows, PassStep, After, Settle, FinishCommit, FinishRollback, Begun, Visited;
    match a
    case Start(kind, now, clock) => StartGrows(cfg, t, locks, kind, now, clock);
    case Visit(kind, b, answer) => VisitGrows(t, locks, kind, b, answer);
    case Spare(kind, b) =>
      SettlePasses(t, locks, kind, b);
      PassGrows(t, t, kind, Settle(t.tx, locks, t.jobs[kind].work, b));
    case Finish(kind) =>
      FinishPasses(t, locks, kind);
      PassGrows(t, t, kind, if kind.Commits() then FinishCommit(t.tx, locks, t.jobs[kind].work) else FinishRollback(t.tx, locks, t.jobs[kind].work));
    case _ => SmallStepGrows(cfg, t, locks, a);
  }

  lemma StartGrows(cfg: Config, t: TxState, locks: LockTable, kind: Kind, now: int, clock: int)
    requires BaseOk(t) && EnabledOn(t, Start(kind, now, clock))
    ensures Grows(t, Begun(cfg, t, locks, kind, now, clock).0)
  {
    hide BaseOk, Begun, IsRetryTimeout, Elapsed, Released;
    HasJob(t, kind);
    StartCases(cfg, t, locks, kind, now, clock);
  }

  lemma SmallStepGrows(cfg: Config, t: TxState, locks: LockTable, a: LocalAction)
    requires BaseOk(t) && EnabledOn(t, a) && !a.Start? && !a.Visit? && !a.Spare? && !a.Finish?
    ensures Grows(t, ApplyOn(cfg, t, locks, a).0)
  {
    hide KnownOk, BranchesOk;
    if a.Report? {
      assert Storage.Report(t.tx, a.b, a.status).report.Keys == t.tx.report.Keys;
    }
  }

  lemma VisitGrows(t: TxState, locks: LockTable, kind: Kind, b: BranchSession, answer: Answer)
    requires BaseOk(t) && EnabledOn(t, Visit(kind, b, answer))
    ensures Grows(t, Visited(t, locks, kind, b, answer).0)
  {
    hide BaseOk, Grows, PassStep, After, VisitCommit, AnswerRollback;
    var w := t.jobs[kind].work;
    if kind.Commits() {
      VisitCommitPasses(t, locks, kind, b, answer);
      PassGrows(t, t.(committed := if answer == Returned(PhaseTwoCommitted) then t.committed + {b} else t.committed), kind,
                VisitCommit(t.tx, locks, w, b, kind.Retries(), answer));
    } else {
      AnswerRollbackPasses(t, locks, kind, b, answer);
      PassGrows(t, t.(undone := if answer == Returned(PhaseTwoRolledBack) then t.undone + {b} else t.undone), kind,
                AnswerRollback(t.tx, locks, w, b, kind.Retries(), answer));
    }
  }

  lemma VisitCommitStays(t: TxState, locks: LockTable, kind: Kind, b: BranchSession, answer: Answer)
    requires BaseOk(t) && TimelyOk(t) && EnabledOn(t, Visit(kind, b, answer)) && kind.Commits()
    ensures Stays(t, Visited(t, locks, kind, b, answer).0)
  {
    OnePass(t, kind);
    hide BaseOk, TimelyOk, Settle;
  }

  lemma NotCommitting(s: GlobalStatus)
    requires RollsBack(s)
    ensures s != AsyncCommitting && s != Committed && !CommitPhase(s)
  {
  }

  lemma AnswerRollbackStays(t: TxState, locks: LockTable, kind: Kind, b: BranchSession, answer: Answer)
    requires TimelyOk(t) && EnabledOn(t, Visit(kind, b, answer)) && !kind.Commits()
    ensures Stays(t, Visited(t, locks, kind, b, answer).0)
  {
    hide TimelyOk, IsTimeoutStatus, AnswerRollback, FamilyOf, RollsBack, RetryStatus, FailedStatus;
    HasRollback(t, kind);
    FinalStatuses(t.tx.status);
    NotCommitting(t.tx.status);
    AnswerStatus(t.tx, locks, t.jobs[kind].work, b, kind.Retries(), answer);
  }

  lemma FinishCommitStays(t: TxState, locks: LockTable, kind: Kind)
    requires BaseOk(t) && TimelyOk(t) && EnabledOn(t, Finish(kind)) && kind.Commits()
    ensures Stays(t, Ended(t, locks, kind).0)
  {
    OnePass(t, kind);
    hide BaseOk, TimelyOk, IsTimeoutStatus, RollsBack, Released;
  }

  lemma FinishRollbackStays(t: TxState, locks: LockTable, kind: Kind)
    requires TimelyOk(t) && EnabledOn(t, Finish(kind)) && !kind.Commits()
    ensures Stays(t, Ended(t, locks, kind).0)
  {
    hide TimelyOk, IsTimeoutStatus, RollsBack, Released, FamilyOf;
    HasRollback(t, kind);
    FinalStatuses(t.tx.status);
    NotCommitting(t.tx.status);
  }

  lemma StartStays(cfg: Config, t: TxState, locks: LockTable, kind: Kind, now: int, clock: int)
    requires BaseOk(t) && TimelyOk(t) && EnabledOn(t, Start(kind, now, clock))
    ensures Stays(t, Begun(cfg, t, locks, kind, now, clock).0)
  {
    if kind == SyncCommit {
      OnePass(t, kind);
    }
    hide BaseOk, TimelyOk;
  }

  lemma StepStays(cfg: Config, t: TxState, locks: LockTable, a: LocalAction)
    requires BaseOk(t) && TimelyOk(t) && EnabledOn(t, a) && (a.Timeout? ==> !TooLate(t.tx, a.now))
    ensures Stays(t, ApplyOn(cfg, t, locks, a).0)
  {
    match a
    case Start(kind, now, clock) => StartStays(cfg, t, locks, kind, now, clock);
    case Visit(kind, b, answer) =>
      if kind.Commits() {
        VisitCommitStays(t, locks, kind, b, answer);
      } else {
        AnswerRollbackStays(t, locks, kind, b, answer);
      }
    case Finish(kind) =>
      if kind.Commits() {
        FinishCommitStays(t, locks, kind);
      } else {
        FinishRollbackStays(t, locks, kind);
      }
    case _ => SmallStepStays(cfg, t, locks, a);
  }

  lemma SmallStepStays(cfg: Config, t: TxState, locks: LockTable, a: LocalAction)
    requires BaseOk(t) && EnabledOn(t, a) && (a.Timeout? ==> !TooLate(t.tx, a.now)) && !a.Start? && !a.Visit? && !a.Finish?
    ensures Stays(t, ApplyOn(cfg, t, locks, a).0)
  {
    hide KnownOk, BranchesOk;
  }

  lemma StartIs(cfg: Config, t: TxState, locks: LockTable, kind: Kind, now: int, clock: int)
    requires kind in t.jobs
    ensures Begun(cfg, t, locks, kind, now, clock).0.late == t.late
  {
    hide HasSaga, AllAsync, IsRetryTimeout, Elapsed, Released;
  }

  lemma LateIs(cfg: Config, t: TxState, locks: LockTable, a: LocalAction)
    requires EnabledOn(t, a)
    ensures ApplyOn(cfg, t, locks, a).0.late == (t.late || (a.Timeout? && TooLate(t.tx, a.now)))
  {
    if a.Start? {
      StartIs(cfg, t, locks, a.kind, a.now, a.clock);
    }
    hide Begun, Settle, VisitCommit, AnswerRollback, FinishCommit, FinishRollback, TooLate;
    hide Storage.Register, Storage.Report, DecideCommit, DecideRollback, DecideTimeout;
  }

  lemma StepOk(cfg: Config, t: TxState, locks: LockTable, a: LocalAction)
    requires TxOk(t) && EnabledOn(t, a)
    ensures TxOk(ApplyOn(cfg, t, locks, a).0) && Evolves(t, ApplyOn(cfg, t, locks, a).0)
  {
    hide BaseOk, AccountOk, TimelyOk, EnabledOn, ApplyOn, Stays, TooLate;
    LateIs(cfg, t, locks, a);
    StepBase(cfg, t, locks, a);
    StepGrows(cfg, t, locks, a);
    StepAccount(cfg, t, locks, a);
    if !ApplyOn(cfg, t, locks, a).0.late {
      StepTimely(cfg, t, locks, a);
      StepStays(cfg, t, locks, a);
    }
  }

  lemma OthersCover(locks: LockTable, locks': LockTable, tid: int, other: int, bs: set<BranchSession>)
    requires CoveredBy(locks, other, bs) && SameOthers(locks, locks', tid) && other != tid
    ensures CoveredBy(locks', other, bs)
  {
    forall k | k in locks' && locks'[k] == other ensures exists b :: b in bs && Covers(locks', k, b) {
      var b :| b in bs && Covers(locks, k, b);
      assert Covers(locks', k, b);
    }
  }

  /** A step on one transaction leaves the rows of the others alone. */
  lemma OthersLocksOk(cfg: Config, t: TxState, locks: LockTable, locks': LockTable, tid: int)
    requires LocksOk(cfg, t, locks) && SameOthers(locks, locks', tid) && t.tx.Tid() != tid
    ensures LocksOk(cfg, t, locks')
  {
    if t.tx.live {
      OthersCover(locks, locks', tid, t.tx.Tid(), Keepers(t));
    } else if t.committing || cfg.rollbackRetryTimeoutUnlockEnable {
      OthersCover(locks, locks', tid, t.tx.Tid(), t.missed);
    }
    hide CoveredBy, SameOthers;
  }

  lemma OwnedAfter(s: State, s': State, tid: int)
    requires Owned(s) && SameOthers(s.locks, s'.locks, tid)
    requires exists x :: x in s'.txs && s'.txs[x].tx.Tid() == tid
    requires forall x :: x in s.txs ==> x in s'.txs && s'.txs[x].tx.Tid() == s.txs[x].tx.Tid()
    ensures Owned(s')
  {
    forall k | k in s'.locks && s'.locks[k] != tid ensures exists x :: x in s'.txs && s'.txs[x].tx.Tid() == s'.locks[k] {
      var x :| x in s.txs && s.txs[x].tx.Tid() == s.locks[k];
      assert s'.txs[x].tx.Tid() == s'.locks[k];
    }
  }

  lemma LocksAfter(cfg: Config, s: State, x: string, t: TxState, locks: LockTable)
    requires Distinct(s) && AllLocksOk(cfg, s) && x in s.txs
    requires LocksOk(cfg, t, locks) && t.tx.session == s.txs[x].tx.session
    requires SameOthers(s.locks, locks, t.tx.Tid())
    ensures AllLocksOk(cfg, State(s.txs[x := t], locks))
  {
    hide LocksOk;
    forall y | y in s.txs && y != x ensures LocksOk(cfg, s.txs[y], locks) {
      OthersLocksOk(cfg, s.txs[y], s.locks, locks, t.tx.Tid());
    }
  }

  lemma UnknownOk(cfg: Config, session: GlobalSession, locks: LockTable)
    requires OwnsNoRow(locks, session.TransactionID)
    ensures TxOk(Unknown(session)) && LocksOk(cfg, Unknown(session), locks)
  {
  }

  lemma BeginInv(cfg: Config, s: State, session: GlobalSession)
    requires Inv(cfg, s) && Enabled(s, BeginTx(session))
    ensures Inv(cfg, Apply(cfg, s, BeginTx(session)))
  {
    hide TxOk, LocksOk, SameOthers;
    assert OwnsNoRow(s.locks, session.TransactionID);
    SameAsBefore(s.locks, session.TransactionID);
    UnknownOk(cfg, session, s.locks);
    var s' := Apply(cfg, s, BeginTx(session));
    assert s'.txs[session.XID].tx.Tid() == session.TransactionID;
    OwnedAfter(s, s', session.TransactionID);
  }

  lemma EvolvesSession(t: TxState, t': TxState)
    ensures Evolves(t, t') ==> t'.tx.session == t.tx.session
  {
  }

  lemma IsBase(t: TxState)
    requires TxOk(t)
    ensures BaseOk(t)
  {
  }

  lemma OnInv(cfg: Config, s: State, x: string, act: LocalAction)
    requires Inv(cfg, s) && x in s.txs && EnabledOn(s.txs[x], act)
    ensures
      var (t, locks) := ApplyOn(cfg, s.txs[x], s.locks, act);
      Inv(cfg, State(s.txs[x := t], locks)) && Evolves(s.txs[x], t)
  {
    hide TxOk, LocksOk, SameOthers, Evolves, ApplyOn, BaseOk, EnabledOn;
    var (t, locks) := ApplyOn(cfg, s.txs[x], s.locks, act);
    IsBase(s.txs[x]);
    EvolvesSession(s.txs[x], t);
    StepOk(cfg, s.txs[x], s.locks, act);
    StepLocks(cfg, s.txs[x], s.locks, act);
    LocksAfter(cfg, s, x, t, locks);
    var s' := State(s.txs[x := t], locks);
    assert s'.txs[x].tx.Tid() == t.tx.Tid();
    OwnedAfter(s, s', t.tx.Tid());
  }

  lemma StepInv(cfg: Config, s: State, a: Action)
    requires Inv(cfg, s) && Enabled(s, a)
    ensures Inv(cfg, Apply(cfg, s, a))
    ensures forall x :: x in s.txs ==> x in Apply(cfg, s, a).txs && Evolves(s.txs[x], Apply(cfg, s, a).txs[x])
  {
    hide TxOk, LocksOk, ApplyOn, EnabledOn;
    match a
    case BeginTx(session) => BeginInv(cfg, s, session);
    case On(x, act) => OnInv(cfg, s, x, act);
  }

  // Runs ---------------------------------------------------------------------------------------------

  predicate Run(cfg: Config, ss: seq<State>, acts: seq<Action>)
  {
    && |ss| == |acts| + 1
    && ss[0] == INIT
    && forall i :: 0 <= i < |acts| ==> Enabled(ss[i], acts[i]) && ss[i + 1] == Apply(cfg, ss[i], acts[i])
  }

  lemma InitInv(cfg: Config)
    ensures Inv(cfg, INIT)
  {
  }

  lemma RunStep(cfg: Config, ss: seq<State>, acts: seq<Action>, i: nat)
    requires Run(cfg, ss, acts) && i < |acts|
    ensures |ss| == |acts| + 1 && Enabled(ss[i], acts[i]) && ss[i + 1] == Apply(cfg, ss[i], acts[i])
  {
    hide Enabled, Apply;
  }

  lemma RunNext(cfg: Config, ss: seq<State>, acts: seq<Action>, a: Action)
    requires Run(cfg, ss, acts) && Enabled(ss[|acts|], a)
    ensures Run(cfg, ss + [Apply(cfg, ss[|acts|], a)], acts + [a])
  {
    hide Enabled, Apply;
  }

  lemma {:induction false} RunInv(cfg: Config, ss: seq<State>, acts: seq<Action>, i: nat)
    requires Run(cfg, ss, acts) && i < |ss|
    ensures Inv(cfg, ss[i])
  {
    hide Inv, Enabled, Apply;
    if i == 0 {
      InitInv(cfg);
    } else {
      RunInv(cfg, ss, acts, i - 1);
      RunStep(cfg, ss, acts, i - 1);
      hide Run;
      StepInv(cfg, ss[i - 1], acts[i - 1]);
    }
  }

  lemma {:induction false} RunEvolves(cfg: Config, ss: seq<State>, acts: seq<Action>, i: nat, j: nat, x: string)
    requires Run(cfg, ss, acts) && i <= j < |ss| && x in ss[i].txs
    ensures x in ss[j].txs && Evolves(ss[i].txs[x], ss[j].txs[x])
    decreases j
  {
    if i == j {
      EvolvesNothing(ss[i].txs[x]);
    } else {
      hide Evolves, Apply, Enabled;
      RunEvolves(cfg, ss, acts, i, j - 1, x);
      RunStepEvolves(cfg, ss, acts, j - 1, x);
      EvolvesTransitive(ss[i].txs[x], ss[j - 1].txs[x], ss[j].txs[x]);
    }
  }

  lemma EvolvesNothing(t: TxState)
    ensures Evolves(t, t)
  {
  }

  lemma EvolvesTransitive(a: TxState, b: TxState, c: TxState)
    requires Evolves(a, b) && Evolves(b, c)
    ensures Evolves(a, c)
  {
    hide FamilyOf;
  }

  lemma RunStepEvolves(cfg: Config, ss: seq<State>, acts: seq<Action>, i: nat, x: string)
    requires Run(cfg, ss, acts) && i < |acts| && x in ss[i].txs
    ensures x in ss[i + 1].txs && Evolves(ss[i].txs[x], ss[i + 1].txs[x])
  {
    hide Evolves;
    RunInv(cfg, ss, acts, i);
    StepInv(cfg, ss[i], acts[i]);
  }

  lemma RunTx(cfg: Config, ss: seq<State>, acts: seq<Action>, i: nat, x: string)
    requires Run(cfg, ss, acts) && i < |ss| && x in ss[i].txs
    ensures BaseOk(ss[i].txs[x]) && (!ss[i].txs[x].late ==> TimelyOk(ss[i].txs[x])) && LocksOk(cfg, ss[i].txs[x], ss[i].locks)
  {
    hide Run, BaseOk, AccountOk, TimelyOk, LocksOk;
    RunInv(cfg, ss, acts, i);
    assert TxOk(ss[i].txs[x]);
  }

  lemma RunAccount(cfg: Config, ss: seq<State>, acts: seq<Action>, i: nat, x: string)
    requires Run(cfg, ss, acts) && i < |ss| && x in ss[i].txs
    ensures AccountOk(ss[i].txs[x])
  {
    hide Run, BaseOk, AccountOk, TimelyOk, LocksOk;
    RunInv(cfg, ss, acts, i);
    assert TxOk(ss[i].txs[x]);
  }

  // Decisions ---------------------------------------------------------------------------------------------

  /** Once a session leaves `Begin` it is closed for ever, takes no more branches and only loses some; and
      its status stays in one of the three families if timeoutCheck never writes over the decision. */
  lemma OneDecision(cfg: Config, ss: seq<State>, acts: seq<Action>, i: nat, j: nat, x: string)
    requires Run(cfg, ss, acts) && i <= j < |ss| && x in ss[i].txs && ss[i].txs[x].tx.status != Begin
    ensures x in ss[j].txs
    ensures
      var t, t' := ss[i].txs[x], ss[j].txs[x];
      && !t.tx.active && !t'.tx.active && t'.tx.status != Begin
      && t'.tx.branches <= t.tx.branches && t'.tx.report.Keys == t.tx.report.Keys
      && (!t.tx.live ==> !t'.tx.live)
      && (!t'.late ==> FamilyOf(t'.tx.status) == FamilyOf(t.tx.status) != Undecided)
  {
    hide Run;
    RunEvolves(cfg, ss, acts, i, j, x);
    RunTx(cfg, ss, acts, i, x);
    RunTx(cfg, ss, acts, j, x);
    hide KnownOk, PassesOk, HistoryOk, LocksOk;
  }

  /** When timeoutCheck has written too late, it was at a step that turned a decision to commit or to roll
      back into a timeout. */
  lemma {:induction false} LateStep(cfg: Config, ss: seq<State>, acts: seq<Action>, j: nat, x: string) returns (n: nat)
    requires Run(cfg, ss, acts) && j < |ss| && x in ss[j].txs && ss[j].txs[x].late
    ensures n < j && n < |acts| && x in ss[n].txs && acts[n].On? && acts[n].xid == x && acts[n].act.Timeout?
    ensures TooLate(ss[n].txs[x].tx, acts[n].act.now) && ss[n].txs[x].tx.status != Begin
    ensures x in ss[n + 1].txs && FamilyOf(ss[n + 1].txs[x].tx.status) == ToTimeout != FamilyOf(ss[n].txs[x].tx.status)
  {
    if x in ss[j - 1].txs && ss[j - 1].txs[x].late {
      n := LateStep(cfg, ss, acts, j - 1, x);
    } else {
      n := j - 1;
      TurningStep(cfg, ss, acts, n, x);
    }
  }

  lemma TurningStep(cfg: Config, ss: seq<State>, acts: seq<Action>, n: nat, x: string)
    requires Run(cfg, ss, acts) && n < |acts| && x in ss[n + 1].txs && ss[n + 1].txs[x].late
    requires x in ss[n].txs ==> !ss[n].txs[x].late
    ensures x in ss[n].txs && acts[n].On? && acts[n].xid == x && acts[n].act.Timeout?
    ensures TooLate(ss[n].txs[x].tx, acts[n].act.now) && ss[n].txs[x].tx.status != Begin
    ensures FamilyOf(ss[n + 1].txs[x].tx.status) == ToTimeout != FamilyOf(ss[n].txs[x].tx.status)
  {
    hide ApplyOn, EnabledOn, FamilyOf, TooLate, BaseOk, TimelyOk, LocksOk;
    RunTx(cfg, ss, acts, n, x);
    assert Enabled(ss[n], acts[n]) && ss[n + 1] == Apply(cfg, ss[n], acts[n]);
    LateIs(cfg, ss[n].txs[x], ss[n].locks, acts[n].act);
    Turned(cfg, ss[n].txs[x], ss[n].locks, acts[n].act.now);
  }

  lemma Turned(cfg: Config, t: TxState, locks: LockTable, now: int)
    requires BaseOk(t) && EnabledOn(t, Timeout(now)) && TooLate(t.tx, now)
    ensures t.tx.status != Begin
    ensures FamilyOf(ApplyOn(cfg, t, locks, Timeout(now)).0.tx.status) == ToTimeout != FamilyOf(t.tx.status)
  {
    hide Elapsed, KnownOk;
  }

  /** The condition is exact: every state since the decision has a status of the same family if and only if
      timeoutCheck has not written over a decision that was not its own. */
  lemma DecisionKept(cfg: Config, ss: seq<State>, acts: seq<Action>, j: nat, x: string)
    requires Run(cfg, ss, acts) && j < |ss| && x in ss[j].txs
    ensures !ss[j].txs[x].late <==>
        forall i :: 0 <= i <= j && x in ss[i].txs && ss[i].txs[x].tx.status != Begin ==>
            FamilyOf(ss[i].txs[x].tx.status) == FamilyOf(ss[j].txs[x].tx.status)
  {
    hide Run, Enabled;
    if ss[j].txs[x].late {
      var n := LateStep(cfg, ss, acts, j, x);
      RunStepEvolves(cfg, ss, acts, n, x);
      assert ss[n + 1].txs[x].tx.status != Begin;
    } else {
      forall i | 0 <= i <= j && x in ss[i].txs && ss[i].txs[x].tx.status != Begin
        ensures FamilyOf(ss[i].txs[x].tx.status) == FamilyOf(ss[j].txs[x].tx.status)
      {
        RunEvolves(cfg, ss, acts, i, j, x);
      }
    }
  }

  /** The write itself: it keeps a decision exactly if none was taken, or this one, or the time is not up. */
  lemma TimeoutWrite(tx: Tx, now: int)
    requires tx.active ==> tx.live
    ensures tx.status != Begin && FamilyOf(DecideTimeout(tx, now).status) != FamilyOf(tx.status) <==> TooLate(tx, now)
  {
    hide Elapsed;
  }

  /** A session is open exactly in `Begin`; a stored one is in one of eight states, and, if timeoutCheck
      never writes too late, `TimeoutRollbackRetrying` is never reached. */
  lemma StoredStatuses(cfg: Config, ss: seq<State>, acts: seq<Action>, i: nat, x: string)
    requires Run(cfg, ss, acts) && i < |ss| && x in ss[i].txs
    ensures
      var t := ss[i].txs[x];
      && (t.tx.active <==> t.tx.status == Begin)
      && (t.tx.live ==> t.tx.status in {Begin, Committing, AsyncCommitting, CommitRetrying, RollingBack, RollbackRetrying,
                                        TimeoutRollingBack, TimeoutRollbackRetrying})
      && (!t.late ==> t.tx.status != TimeoutRollbackRetrying)
  {
    hide Run;
    RunTx(cfg, ss, acts, i, x);
    RunAccount(cfg, ss, acts, i, x);
    hide KnownOk, PassesOk, HistoryOk, LocksOk, Accounted, FailuresKnown;
  }

  /** No decided transaction is left to nobody, but in `Committing`: a stored one is in a state that a retry
      loop looks for, or it is `Committing`. */
  lemma SomebodyWants(cfg: Config, ss: seq<State>, acts: seq<Action>, i: nat, x: string)
    requires Run(cfg, ss, acts) && i < |ss| && x in ss[i].txs
    requires ss[i].txs[x].tx.live && ss[i].txs[x].tx.status != Begin
    ensures
      var s := ss[i].txs[x].tx.status;
      (Wanted(RetryCommit, s) || Wanted(AsyncCommit, s) || Wanted(RetryRollback, s)) <==> s != Committing
  {
    StoredStatuses(cfg, ss, acts, i, x);
  }

  /** An asynchronous commit never fails and never joins the retry loop, if its stored branches are all
      asynchronous; and they are, if its decision missed none. */
  lemma AsyncStaysAsync(cfg: Config, ss: seq<State>, acts: seq<Action>, i: nat, j: nat, x: string)
    requires Run(cfg, ss, acts) && i <= j < |ss| && x in ss[i].txs && ss[i].txs[x].tx.status == AsyncCommitting
    requires AllAsync(ss[i].txs[x].tx.branches) || ss[i].txs[x].missed == {}
    ensures x in ss[j].txs
    ensures
      var t := ss[j].txs[x];
      !t.late ==> t.tx.status in {AsyncCommitting, Committed} && (t.tx.live <==> t.tx.status == AsyncCommitting)
  {
    hide Run;
    RunEvolves(cfg, ss, acts, i, j, x);
    RunTx(cfg, ss, acts, i, x);
    RunTx(cfg, ss, acts, j, x);
    hide KnownOk, PassesOk, HistoryOk, LocksOk;
  }

  // Rows --------------------------------------------------------------------------------------------------

  lemma RowTx(cfg: Config, ss: seq<State>, acts: seq<Action>, i: nat, k: string) returns (x: string)
    requires Run(cfg, ss, acts) && i < |ss| && k in ss[i].locks
    ensures x in ss[i].txs && ss[i].txs[x].tx.Tid() == ss[i].locks[k]
  {
    hide Run, Distinct, TxsOk, AllLocksOk;
    RunInv(cfg, ss, acts, i);
    x :| x in ss[i].txs && ss[i].txs[x].tx.Tid() == ss[i].locks[k];
  }

  lemma RowCoverer(locks: LockTable, k: string, bs: set<BranchSession>) returns (b: BranchSession)
    requires k in locks && CoveredBy(locks, locks[k], bs)
    ensures b in bs && Covers(locks, k, b)
  {
    hide Covers;
    b :| b in bs && Covers(locks, k, b);
  }

  lemma RowBranch(cfg: Config, t: TxState, locks: LockTable, k: string) returns (b: BranchSession)
    requires LocksOk(cfg, t, locks) && cfg.rollbackRetryTimeoutUnlockEnable && k in locks && locks[k] == t.tx.Tid()
    ensures Covers(locks, k, b) && (t.tx.live ==> b in t.tx.branches) && (!t.tx.live || t.committing ==> b in t.missed)
  {
    hide CoveredBy, Covers;
    b := RowCoverer(locks, k, if t.tx.live then Keepers(t) else t.missed);
  }

  /** The transaction that owns a row, and a branch that the row belongs to. */
  lemma RowOwner(cfg: Config, ss: seq<State>, acts: seq<Action>, i: nat, k: string) returns (x: string, b: BranchSession)
    requires Run(cfg, ss, acts) && i < |ss| && cfg.rollbackRetryTimeoutUnlockEnable && k in ss[i].locks
    ensures x in ss[i].txs && ss[i].txs[x].tx.Tid() == ss[i].locks[k] && Covers(ss[i].locks, k, b)
    ensures ss[i].txs[x].tx.live ==> b in ss[i].txs[x].tx.branches
    ensures !ss[i].txs[x].tx.live || ss[i].txs[x].committing ==> b in ss[i].txs[x].missed
  {
    hide Run, BaseOk, TimelyOk, LocksOk, Covers;
    x := RowTx(cfg, ss, acts, i, k);
    RunTx(cfg, ss, acts, i, x);
    b := RowBranch(cfg, ss[i].txs[x], ss[i].locks, k);
  }

  /** No orphan locks. With timed-out rollbacks unlocking, every held row is in the lock key of an AT branch
      of the transaction that owns it: one stored under it, if it is stored; and if it is removed, or was
      decided to commit, one that was registered between the decision and the lookup before. */
  lemma NoOrphanLocks(cfg: Config, ss: seq<State>, acts: seq<Action>, i: nat, k: string)
    requires Run(cfg, ss, acts) && i < |ss| && cfg.rollbackRetryTimeoutUnlockEnable && k in ss[i].locks
    ensures exists x, b ::
        && x in ss[i].txs && ss[i].txs[x].tx.Tid() == ss[i].locks[k] && Covers(ss[i].locks, k, b)
        && (ss[i].txs[x].tx.live ==> b in ss[i].txs[x].tx.branches)
        && (!ss[i].txs[x].tx.live || ss[i].txs[x].committing ==> b in ss[i].txs[x].missed)
  {
    var x, b := RowOwner(cfg, ss, acts, i, k);
    hide Run, Covers;
  }

  /** So a transaction whose decision missed no branch owns no row once it was decided to commit, and, with
      timed-out rollbacks unlocking, none once it is removed. */
  lemma OwnsNothing(cfg: Config, ss: seq<State>, acts: seq<Action>, i: nat, x: string)
    requires Run(cfg, ss, acts) && i < |ss| && x in ss[i].txs && ss[i].txs[x].missed == {}
    requires ss[i].txs[x].committing || (!ss[i].txs[x].tx.live && cfg.rollbackRetryTimeoutUnlockEnable)
    ensures OwnsNoRow(ss[i].locks, ss[i].txs[x].tx.Tid())
  {
    hide Run, BaseOk, TimelyOk;
    RunTx(cfg, ss, acts, i, x);
  }

  /** At the decision the condition is exact: no row is left if and only if the copy claims every row that
      the transaction holds. It does if nothing was registered since the lookup. */
  lemma DecisionRows(cfg: Config, ss: seq<State>, acts: seq<Action>, i: nat, x: string, copy: set<BranchSession>)
    requires Run(cfg, ss, acts) && i < |acts| && acts[i] == On(x, Commit(copy))
    ensures x in ss[i].txs && x in ss[i + 1].txs
    ensures
      var tid := ss[i].txs[x].tx.Tid();
      OwnsNoRow(ss[i + 1].locks, tid) <==>
        forall k :: k in ss[i].locks && ss[i].locks[k] == tid ==> (k, tid) in ClaimsOf(copy)
    ensures ss[i].txs[x].tx.status == Begin ==>
        ss[i + 1].txs[x].committing && ss[i + 1].txs[x].missed == ss[i].txs[x].tx.branches - copy
    ensures ss[i].txs[x].tx.status == Begin && copy == ss[i].txs[x].tx.branches ==> OwnsNoRow(ss[i + 1].locks, ss[i].txs[x].tx.Tid())
  {
    assert Enabled(ss[i], acts[i]);
    if ss[i].txs[x].tx.status == Begin && copy == ss[i].txs[x].tx.branches {
      RunTx(cfg, ss, acts, i + 1, x);
      assert ss[i + 1].txs[x].missed == {};
      OwnsNothing(cfg, ss, acts, i + 1, x);
    }
    hide BaseOk, TimelyOk, LocksOk;
    ReleasedFrees(ss[i].locks, ClaimsOf(copy), ss[i].txs[x].tx.Tid());
  }

  lemma ReleasedFrees(locks: LockTable, claims: set<Claim>, tid: int)
    ensures OwnsNoRow(Released(locks, claims), tid) <==> forall k :: k in locks && locks[k] == tid ==> (k, tid) in claims
  {
    var locks' := Released(locks, claims);
    forall k | k in locks && locks[k] == tid && (k, tid) !in claims ensures k in locks' && locks'[k] == tid {
    }
  }

  /** A decided transaction takes no more rows, */
  predicate Fewer(locks: LockTable, locks': LockTable, tid: int)
  {
    forall k :: k in locks' && locks'[k] == tid ==> k in locks && locks[k] == tid
  }

  lemma VisitFewer(t: TxState, locks: LockTable, kind: Kind, b: BranchSession, answer: Answer)
    requires kind in t.jobs
    ensures Fewer(locks, Visited(t, locks, kind, b, answer).1, t.tx.Tid())
  {
    hide IsTimeoutStatus, ClaimsOf, BranchClaims;
  }

  lemma EndFewer(t: TxState, locks: LockTable, kind: Kind)
    requires kind in t.jobs
    ensures Fewer(locks, Ended(t, locks, kind).1, t.tx.Tid())
  {
    hide IsTimeoutStatus, ClaimsOf, BranchClaims;
  }

  lemma StepFewer(cfg: Config, t: TxState, locks: LockTable, a: LocalAction)
    requires BaseOk(t) && EnabledOn(t, a) && t.tx.status != Begin
    ensures Fewer(locks, ApplyOn(cfg, t, locks, a).1, t.tx.Tid())
  {
    hide Begun, Visited, Ended, KnownOk, BranchesOk, IsTimeoutStatus, ClaimsOf, BranchClaims;
    match a
    case Start(kind, now, clock) => StartCases(cfg, t, locks, kind, now, clock);
    case Visit(kind, b, answer) => VisitFewer(t, locks, kind, b, answer);
    case Finish(kind) => EndFewer(t, locks, kind);
    case _ =>
  }

  /** neither by its own steps nor by those of others. */
  lemma {:induction false} RowsShrink(cfg: Config, ss: seq<State>, acts: seq<Action>, i: nat, j: nat, x: string)
    requires Run(cfg, ss, acts) && i <= j < |ss| && x in ss[i].txs && ss[i].txs[x].tx.status != Begin
    ensures Fewer(ss[i].locks, ss[j].locks, ss[i].txs[x].tx.Tid())
    decreases j
  {
    if i < j {
      var tid := ss[i].txs[x].tx.Tid();
      RowsShrink(cfg, ss, acts, i, j - 1, x);
      hide Enabled, Apply, Fewer, FamilyOf;
      OneDecision(cfg, ss, acts, i, j - 1, x);
      RunEvolves(cfg, ss, acts, i, j - 1, x);
      StateFewer(cfg, ss, acts, j - 1, x);
      FewerTransitive(ss[i].locks, ss[j - 1].locks, ss[j].locks, tid);
    } else {
      assert Fewer(ss[i].locks, ss[i].locks, ss[i].txs[x].tx.Tid());
    }
  }

  lemma FewerTransitive(a: LockTable, b: LockTable, c: LockTable, tid: int)
    requires Fewer(a, b, tid) && Fewer(b, c, tid)
    ensures Fewer(a, c, tid)
  {
  }

  lemma StateFewer(cfg: Config, ss: seq<State>, acts: seq<Action>, i: nat, x: string)
    requires Run(cfg, ss, acts) && i < |acts| && x in ss[i].txs && ss[i].txs[x].tx.status != Begin
    ensures Fewer(ss[i].locks, ss[i + 1].locks, ss[i].txs[x].tx.Tid())
  {
    hide BaseOk, TimelyOk, LocksOk;
    assert Enabled(ss[i], acts[i]);
    if acts[i].On? {
      var y, a := acts[i].xid, acts[i].act;
      RunTx(cfg, ss, acts, i, y);
      if y == x {
        StepFewer(cfg, ss[i].txs[x], ss[i].locks, a);
      } else {
        RunInv(cfg, ss, acts, i);
        StepLocks(cfg, ss[i].txs[y], ss[i].locks, a);
      }
    }
    hide ApplyOn, EnabledOn;
  }

  /** Whatever the configuration and the timing, rows are orphaned only by a removed transaction. */
  lemma OrphansAreRemoved(cfg: Config, ss: seq<State>, acts: seq<Action>, i: nat, k: string)
    requires Run(cfg, ss, acts) && i < |ss| && k in ss[i].locks
    ensures exists x ::
        && x in ss[i].txs && ss[i].txs[x].tx.Tid() == ss[i].locks[k]
        && (ss[i].txs[x].tx.live ==> exists b :: b in ss[i].txs[x].tx.branches && Covers(ss[i].locks, k, b))
  {
    hide Run, BaseOk, TimelyOk;
    var s := ss[i];
    var x := RowTx(cfg, ss, acts, i, k);
    RunTx(cfg, ss, acts, i, x);
  }

  /** The condition is exact: removing a timed-out rollback leaves no row behind if and only if unlocking
      is enabled or the transaction held none. */
  lemma TimedOutRollbackRows(cfg: Config, ss: seq<State>, acts: seq<Action>, i: nat, x: string, now: int, clock: int)
    requires Run(cfg, ss, acts) && i < |ss| && x in ss[i].txs && ss[i].txs[x].tx.live
    requires EnabledOn(ss[i].txs[x], Start(RetryRollback, now, clock))
    requires ss[i].txs[x].tx.status != RollingBack
    requires IsRetryTimeout(now, cfg.maxRollbackRetryTimeout, ss[i].txs[x].tx.session.BeginTime)
    ensures
      var (t', locks') := ApplyOn(cfg, ss[i].txs[x], ss[i].locks, Start(RetryRollback, now, clock));
      !t'.tx.live
      && (OwnsNoRow(locks', t'.tx.Tid()) <==>
          cfg.rollbackRetryTimeoutUnlockEnable || OwnsNoRow(ss[i].locks, t'.tx.Tid()))
  {
    RunTx(cfg, ss, acts, i, x);
    var t, locks := ss[i].txs[x], ss[i].locks;
    HasJob(t, RetryRollback);
    StartCases(cfg, t, locks, RetryRollback, now, clock);
    AllReleased(t, locks, t.jobs[RetryRollback].work.branches);
    hide Run, BaseOk, TimelyOk, LocksOk, Begun;
  }

  lemma AllReleased(t: TxState, locks: LockTable, bs: set<BranchSession>)
    requires t.tx.branches <= bs
    ensures CoveredBy(locks, t.tx.Tid(), Keepers(t)) ==> OwnsNoRow(Released(locks, ClaimsOf(bs)), t.tx.Tid())
  {
    if CoveredBy(locks, t.tx.Tid(), Keepers(t)) {
      ReleaseTakes(locks, t.tx.Tid(), Keepers(t), bs);
      assert Keepers(t) - bs == {};
    }
  }
}
