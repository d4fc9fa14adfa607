/** The calls on the in-memory lock map, cut at every `LoadOrStore`, `Load` and `Delete`
    (pkg/tc/storage/driver/inmemory/inmemory.go): calls of different transactions interleave row by row.
    Elsewhere a call is one step; this says what that leaves out. */
module RowSteps {
  import opened Storage

  /** Storing the rows from `next` on; after a conflict, or in a release, loading them, or about to delete
      the one at `next`; or returned. */
  datatype Phase = Storing(next: nat) | Loading(next: nat) | Deleting(next: nat) | Ended(ok: bool)

  /** `held` is what the transaction held when the call began. */
  datatype Call = Call(tid: int, keys: seq<string>, acquires: bool, held: set<string>, phase: Phase)

  datatype State = State(locks: LockTable, calls: seq<Call>)

  datatype Action = Acquire(tid: int, keys: seq<string>) | Release(tid: int, keys: seq<string>) | Step(call: nat)

  const INIT: State := State(map[], [])

  function RowsOf(locks: LockTable, tid: int): set<string>
  {
    set k | k in locks && locks[k] == tid
  }

  function Members(keys: seq<string>): set<string>
  {
    set k | k in keys
  }

  predicate Enabled(s: State, a: Action)
  {
    a.Step? ==> a.call < |s.calls| && !s.calls[a.call].phase.Ended?
  }

  /** One operation on the map, or the return. */
  function Operate(locks: LockTable, c: Call): (LockTable, Phase)
    requires !c.phase.Ended?
  {
    var i := c.phase.next;
    match c.phase
    case Storing(_) =>
      if i >= |c.keys| then (locks, Ended(true))
      else if c.keys[i] !in locks then (locks[c.keys[i] := c.tid], Storing(i + 1))
      else if locks[c.keys[i]] == c.tid then (locks, Storing(i + 1))
      else (locks, Loading(0))
    case Loading(_) =>
      if i >= |c.keys| then (locks, Ended(!c.acquires))
      else if c.keys[i] in locks && locks[c.keys[i]] == c.tid then (locks, Deleting(i))
      else (locks, Loading(i + 1))
    case Deleting(_) =>
      if i >= |c.keys| then (locks, Loading(i)) else (locks - {c.keys[i]}, Loading(i + 1))
  }

  function Apply(s: State, a: Action): State
    requires Enabled(s, a)
  {
    match a
    case Acquire(tid, keys) => s.(calls := s.calls + [Call(tid, keys, true, RowsOf(s.locks, tid), Storing(0))])
    case Release(tid, keys) => s.(calls := s.calls + [Call(tid, keys, false, RowsOf(s.locks, tid), Loading(0))])
    case Step(c) =>
      var (locks, phase) := Operate(s.locks, s.calls[c]);
      State(locks, s.calls[c := s.calls[c].(phase := phase)])
  }

  /** No transaction has two calls under way. */
  predicate Serial(s: State)
  {
    forall c, d :: 0 <= c < d < |s.calls| && !s.calls[c].phase.Ended? && !s.calls[d].phase.Ended? ==>
        s.calls[c].tid != s.calls[d].tid
  }

  predicate Run(ss: seq<State>, acts: seq<Action>)
  {
    && |ss| == |acts| + 1 && ss[0] == INIT
    && forall i :: 0 <= i < |acts| ==> Enabled(ss[i], acts[i]) && ss[i + 1] == Apply(ss[i], acts[i])
  }

  predicate SerialRun(ss: seq<State>) { forall i :: 0 <= i < |ss| ==> Serial(ss[i]) }

  // What holds while a call is under way --------------------------------------------------------------

  predicate Progress(c: Call, rows: set<string>)
  {
    match c.phase
    case Storing(i) => c.acquires && i <= |c.keys| && rows == c.held + Members(c.keys[..i])
    case Loading(i) => i <= |c.keys| && Letting(c, i, rows)
    case Deleting(i) => i < |c.keys| && Letting(c, i, rows) && c.keys[i] in rows
    case Ended(_) => true
  }

  /** The first i rows are let go; no other was added or lost. */
  predicate Letting(c: Call, i: nat, rows: set<string>)
    requires i <= |c.keys|
  {
    c.held - Members(c.keys) <= rows <= c.held + Members(c.keys) && rows !! Members(c.keys[..i])
  }

  predicate Inv(s: State)
  {
    forall c :: 0 <= c < |s.calls| ==> Progress(s.calls[c], RowsOf(s.locks, s.calls[c].tid))
  }

  lemma MembersNext(keys: seq<string>, i: nat)
    requires i < |keys|
    ensures Members(keys[..i + 1]) == Members(keys[..i]) + {keys[i]}
    ensures keys[i] in Members(keys) && Members(keys[..i + 1]) <= Members(keys)
  {
    assert keys[..i + 1] == keys[..i] + [keys[i]];
  }

  lemma AllMembers(keys: seq<string>)
    ensures keys[..|keys|] == keys && Members(keys[..0]) == {}
  {
  }

  /** One operation of a call touches its own transaction's rows only. */
  lemma OthersKept(locks: LockTable, c: Call, tid: int)
    requires !c.phase.Ended? && Progress(c, RowsOf(locks, c.tid)) && tid != c.tid
    ensures RowsOf(Operate(locks, c).0, tid) == RowsOf(locks, tid)
  {
    hide Letting, Members;
    assert c.phase.Deleting? ==> c.keys[c.phase.next] in RowsOf(locks, c.tid);
  }

  lemma LettingNext(c: Call, i: nat, rows: set<string>)
    requires i < |c.keys| && Letting(c, i, rows)
    ensures Letting(c, i + 1, rows - {c.keys[i]})
  {
    MembersNext(c.keys, i);
  }

  lemma ProgressNext(locks: LockTable, c: Call)
    requires !c.phase.Ended? && Progress(c, RowsOf(locks, c.tid))
    ensures
      var (locks', phase) := Operate(locks, c);
      Progress(c.(phase := phase), RowsOf(locks', c.tid))
  {
    var i, rows := c.phase.next, RowsOf(locks, c.tid);
    AllMembers(c.keys);
    if i < |c.keys| {
      MembersNext(c.keys, i);
      var k := c.keys[i];
      assert RowsOf(locks - {k}, c.tid) == rows - {k};
      if k !in locks {
        assert RowsOf(locks[k := c.tid], c.tid) == rows + {k};
      }
      if !c.phase.Storing? {
        LettingNext(c, i, rows);
        assert k !in rows ==> rows - {k} == rows;
      }
    }
  }

  lemma StepInv(s: State, a: Action)
    requires Inv(s) && Enabled(s, a) && Serial(s)
    ensures Inv(Apply(s, a))
  {
    hide Progress, Operate;
    var s' := Apply(s, a);
    match a
    case Acquire(tid, keys) => Begins(s'.calls[|s.calls|], RowsOf(s.locks, tid));
    case Release(tid, keys) => Begins(s'.calls[|s.calls|], RowsOf(s.locks, tid));
    case Step(c) =>
      ProgressNext(s.locks, s.calls[c]);
      forall d | 0 <= d < |s.calls| && d != c ensures Progress(s'.calls[d], RowsOf(s'.locks, s'.calls[d].tid)) {
        if s.calls[d].phase.Ended? {
          NothingToKeep(s.calls[d], RowsOf(s'.locks, s.calls[d].tid));
        } else {
          OthersKept(s.locks, s.calls[c], s.calls[d].tid);
        }
      }
  }

  lemma Begins(c: Call, rows: set<string>)
    requires c.held == rows && c.phase == if c.acquires then Storing(0) else Loading(0)
    ensures Progress(c, rows)
  {
    AllMembers(c.keys);
  }

  lemma NothingToKeep(c: Call, rows: set<string>)
    requires c.phase.Ended?
    ensures Progress(c, rows)
  {
  }

  lemma {:induction false} RunInv(ss: seq<State>, acts: seq<Action>, i: nat)
    requires Run(ss, acts) && SerialRun(ss) && i < |ss|
    ensures Inv(ss[i])
  {
    if i > 0 {
      RunInv(ss, acts, i - 1);
      hide Inv, Enabled, Apply, Serial;
      StepInv(ss[i - 1], acts[i - 1]);
    }
  }

  // What a call does --------------------------------------------------------------------------------------

  /** If no transaction has two calls under way, then, however the calls interleave row by row, no step
      touches a row of another transaction, */
  lemma OwnRowsOnly(ss: seq<State>, acts: seq<Action>, i: nat, tid: int)
    requires Run(ss, acts) && SerialRun(ss) && i < |acts|
    requires acts[i].Step? ==> ss[i].calls[acts[i].call].tid != tid
    ensures RowsOf(ss[i + 1].locks, tid) == RowsOf(ss[i].locks, tid)
  {
    RunInv(ss, acts, i);
    assert Enabled(ss[i], acts[i]);
    if acts[i].Step? {
      OthersKept(ss[i].locks, ss[i].calls[acts[i].call], tid);
    }
  }

  /** and a call leaves its transaction with exactly the rows that the whole call, done in one step with
      the same answer, would leave it. */
  lemma CallAsOneStep(ss: seq<State>, acts: seq<Action>, i: nat, c: nat)
    requires Run(ss, acts) && SerialRun(ss) && i < |acts| && acts[i] == Step(c)
    requires ss[i + 1].calls[c].phase.Ended?
    ensures
      var call := ss[i + 1].calls[c];
      RowsOf(ss[i + 1].locks, call.tid) ==
        if call.acquires && call.phase.ok then call.held + Members(call.keys) else call.held - Members(call.keys)
  {
    RunInv(ss, acts, i);
    assert Enabled(ss[i], acts[i]);
    var call := ss[i].calls[c];
    assert Progress(call, RowsOf(ss[i].locks, call.tid));
    AllMembers(call.keys);
  }

  // What a call answers -------------------------------------------------------------------------------

  /** At this step call c tries to store a row that is with another transaction, */
  predicate Meets(s: State, a: Action, c: nat)
  {
    && a == Step(c) && c < |s.calls| && s.calls[c].phase.Storing? && s.calls[c].phase.next < |s.calls[c].keys|
    && var k := s.calls[c].keys[s.calls[c].phase.next]; k in s.locks && s.locks[k] != s.calls[c].tid
  }

  /** or its row at n, which is free or its own. */
  predicate Stores(s: State, a: Action, c: nat, n: nat)
  {
    && a == Step(c) && c < |s.calls| && s.calls[c].phase == Storing(n) && n < |s.calls[c].keys|
    && (s.calls[c].keys[n] in s.locks ==> s.locks[s.calls[c].keys[n]] == s.calls[c].tid)
  }

  predicate HasMet(ss: seq<State>, acts: seq<Action>, i: nat, c: nat)
  {
    exists m :: 0 <= m < i && m < |ss| && m < |acts| && Meets(ss[m], acts[m], c)
  }

  predicate HasStored(ss: seq<State>, acts: seq<Action>, i: nat, c: nat, n: nat)
  {
    exists m :: 0 <= m < i && m < |ss| && m < |acts| && Stores(ss[m], acts[m], c, n)
  }

  /** What a request has found on its way. */
  predicate Found(ss: seq<State>, acts: seq<Action>, i: nat, c: nat, call: Call)
  {
    match call.phase
    case Storing(k) => forall n :: 0 <= n < k ==> HasStored(ss, acts, i, c, n)
    case Ended(ok) => if ok then forall n :: 0 <= n < |call.keys| ==> HasStored(ss, acts, i, c, n) else HasMet(ss, acts, i, c)
    case _ => HasMet(ss, acts, i, c)
  }

  lemma StoredLater(ss: seq<State>, acts: seq<Action>, i: nat, j: nat, c: nat, n: nat)
    requires i <= j && HasStored(ss, acts, i, c, n)
    ensures HasStored(ss, acts, j, c, n)
  {
    hide Stores;
    var m :| 0 <= m < i && m < |ss| && m < |acts| && Stores(ss[m], acts[m], c, n);
    assert Stores(ss[m], acts[m], c, n);
  }

  lemma FoundLater(ss: seq<State>, acts: seq<Action>, i: nat, j: nat, c: nat, call: Call)
    requires i <= j && Found(ss, acts, i, c, call)
    ensures Found(ss, acts, j, c, call)
  {
    hide Meets, HasStored;
    var stored := match call.phase case Storing(k) => k case Ended(ok) => if ok then |call.keys| else 0 case _ => 0;
    forall n | 0 <= n < stored ensures HasStored(ss, acts, j, c, n) {
      assert HasStored(ss, acts, i, c, n);
      StoredLater(ss, acts, i, j, c, n);
    }
  }

  lemma FoundNext(ss: seq<State>, acts: seq<Action>, i: nat, c: nat)
    requires i < |ss| && i < |acts| && acts[i] == Step(c) && Enabled(ss[i], acts[i])
    requires var call := ss[i].calls[c]; call.acquires && Found(ss, acts, i, c, call) && (call.phase.Storing? ==> call.phase.next <= |call.keys|)
    ensures
      var call := ss[i].calls[c];
      Found(ss, acts, i + 1, c, call.(phase := Operate(ss[i].locks, call).1))
  {
    var call := ss[i].calls[c];
    FoundLater(ss, acts, i, i + 1, c, call);
    if call.phase.Storing? && call.phase.next < |call.keys| {
      var n := call.phase.next;
      assert Meets(ss[i], acts[i], c) || Stores(ss[i], acts[i], c, n);
      if Meets(ss[i], acts[i], c) {
        assert HasMet(ss, acts, i + 1, c);
      } else {
        assert HasStored(ss, acts, i + 1, c, n);
      }
    }
    hide Meets, Stores, HasMet, HasStored;
  }

  lemma {:induction false} RunFound(ss: seq<State>, acts: seq<Action>, i: nat, c: nat)
    requires Run(ss, acts) && i < |ss| && c < |ss[i].calls| && ss[i].calls[c].acquires
    ensures Found(ss, acts, i, c, ss[i].calls[c])
    ensures ss[i].calls[c].phase.Storing? ==> ss[i].calls[c].phase.next <= |ss[i].calls[c].keys|
  {
    hide Found, Operate;
    if i > 0 {
      var s, a := ss[i - 1], acts[i - 1];
      assert Enabled(s, a);
      if c < |s.calls| {
        RunFound(ss, acts, i - 1, c);
        if a == Step(c) {
          FoundNext(ss, acts, i - 1, c);
          StoringNext(s.locks, s.calls[c]);
        } else {
          FoundLater(ss, acts, i - 1, i, c, s.calls[c]);
        }
      } else {
        FoundNothing(ss, acts, i, c, ss[i].calls[c]);
      }
    }
  }

  lemma StoringNext(locks: LockTable, c: Call)
    requires !c.phase.Ended? && (c.phase.Storing? ==> c.phase.next <= |c.keys|)
    ensures var phase := Operate(locks, c).1; phase.Storing? ==> phase.next <= |c.keys|
  {
  }

  lemma FoundNothing(ss: seq<State>, acts: seq<Action>, i: nat, c: nat, call: Call)
    requires call.phase == Storing(0)
    ensures Found(ss, acts, i, c, call)
  {
  }

  /** In every run: a request that is refused has met a row of another transaction on its way, and one that
      is granted has found every one of its rows free or its own when it stored it. */
  lemma AnswersFound(ss: seq<State>, acts: seq<Action>, i: nat, c: nat)
    requires Run(ss, acts) && i < |ss| && c < |ss[i].calls| && ss[i].calls[c].acquires && ss[i].calls[c].phase.Ended?
    ensures !ss[i].calls[c].phase.ok ==> HasMet(ss, acts, i, c)
    ensures ss[i].calls[c].phase.ok ==> forall n :: 0 <= n < |ss[i].calls[c].keys| ==> HasStored(ss, acts, i, c, n)
  {
    RunFound(ss, acts, i, c);
  }

  // What is lost ------------------------------------------------------------------------------------------

  lemma Then(ss: seq<State>, acts: seq<Action>, s: State, a: Action, s': State) returns (ss': seq<State>, acts': seq<Action>)
    requires Run(ss, acts) && ss[|acts|] == s && Enabled(s, a) && Apply(s, a) == s'
    ensures Run(ss', acts') && ss'[|acts'|] == s' && |acts'| == |acts| + 1 && acts'[|acts|] == a && ss <= ss' && acts <= acts'
    ensures SerialRun(ss) && Serial(s') ==> SerialRun(ss')
  {
    hide Serial;
    ss', acts' := ss + [s'], acts + [a];
  }

  /** Two transactions that ask for the same two rows in opposite orders. */
  function Crossed(t: int, u: int, k: string, l: string, locks: LockTable, first: Phase, second: Phase): State
  {
    State(locks, [Call(t, [k, l], true, {}, first), Call(u, [l, k], true, {}, second)])
  }

  lemma StepFirst(ss: seq<State>, acts: seq<Action>, t: int, u: int, k: string, l: string, locks: LockTable, first: Phase, second: Phase,
                  locks': LockTable, first': Phase)
    returns (ss': seq<State>, acts': seq<Action>)
    requires Run(ss, acts) && SerialRun(ss) && ss[|acts|] == Crossed(t, u, k, l, locks, first, second) && t != u
    requires !first.Ended? && Operate(locks, Call(t, [k, l], true, {}, first)) == (locks', first')
    ensures Run(ss', acts') && SerialRun(ss') && ss'[|acts'|] == Crossed(t, u, k, l, locks', first', second)
  {
    hide Run, SerialRun, Operate;
    ss', acts' := Then(ss, acts, Crossed(t, u, k, l, locks, first, second), Step(0), Crossed(t, u, k, l, locks', first', second));
  }

  lemma StepSecond(ss: seq<State>, acts: seq<Action>, t: int, u: int, k: string, l: string, locks: LockTable, first: Phase, second: Phase,
                   locks': LockTable, second': Phase)
    returns (ss': seq<State>, acts': seq<Action>)
    requires Run(ss, acts) && SerialRun(ss) && ss[|acts|] == Crossed(t, u, k, l, locks, first, second) && t != u
    requires !second.Ended? && Operate(locks, Call(u, [l, k], true, {}, second)) == (locks', second')
    ensures Run(ss', acts') && SerialRun(ss') && ss'[|acts'|] == Crossed(t, u, k, l, locks', first, second')
  {
    hide Run, SerialRun, Operate;
    ss', acts' := Then(ss, acts, Crossed(t, u, k, l, locks, first, second), Step(1), Crossed(t, u, k, l, locks', first, second'));
  }

  lemma BothAsk(t: int, u: int, k: string, l: string) returns (ss: seq<State>, acts: seq<Action>)
    requires t != u
    ensures Run(ss, acts) && SerialRun(ss) && ss[|acts|] == Crossed(t, u, k, l, map[], Storing(0), Storing(0))
  {
    var s := State(map[], [Call(t, [k, l], true, {}, Storing(0))]);
    assert RowsOf(map[], t) == {} && RowsOf(map[], u) == {};
    ss, acts := Then([INIT], [], INIT, Acquire(t, [k, l]), s);
    hide Run;
    ss, acts := Then(ss, acts, s, Acquire(u, [l, k]), Crossed(t, u, k, l, map[], Storing(0), Storing(0)));
  }

  /** The answer may differ from that of one step: both can be refused, although nobody holds any row
      before or after. */
  lemma BothRefused(t: int, u: int, k: string, l: string) returns (ss: seq<State>, acts: seq<Action>)
    requires t != u && k != l
    ensures Run(ss, acts) && SerialRun(ss)
    ensures ss[|acts|] == Crossed(t, u, k, l, map[], Ended(false), Ended(false))
  {
    hide Run, SerialRun, Crossed;
    var none, one, both: LockTable := map[], map[k := t], map[k := t, l := u];
    ss, acts := BothAsk(t, u, k, l);
    ss, acts := StepFirst(ss, acts, t, u, k, l, none, Storing(0), Storing(0), one, Storing(1));
    ss, acts := StepSecond(ss, acts, t, u, k, l, one, Storing(1), Storing(0), both, Storing(1));
    ss, acts := StepFirst(ss, acts, t, u, k, l, both, Storing(1), Storing(1), both, Loading(0));
    ss, acts := StepSecond(ss, acts, t, u, k, l, both, Loading(0), Storing(1), both, Loading(0));
    ss, acts := BothLetGo(ss, acts, t, u, k, l);
  }

  lemma BothLetGo(ss: seq<State>, acts: seq<Action>, t: int, u: int, k: string, l: string) returns (ss': seq<State>, acts': seq<Action>)
    requires t != u && k != l && Run(ss, acts) && SerialRun(ss)
    requires ss[|acts|] == Crossed(t, u, k, l, map[k := t, l := u], Loading(0), Loading(0))
    ensures Run(ss', acts') && SerialRun(ss')
    ensures ss'[|acts'|] == Crossed(t, u, k, l, map[], Ended(false), Ended(false))
  {
    hide Run, SerialRun, Crossed;
    var both, one, none: LockTable := map[k := t, l := u], map[l := u], map[];
    assert both - {k} == one && one - {l} == none;
    ss', acts' := StepFirst(ss, acts, t, u, k, l, both, Loading(0), Loading(0), both, Deleting(0));
    ss', acts' := StepFirst(ss', acts', t, u, k, l, both, Deleting(0), Loading(0), one, Loading(1));
    ss', acts' := StepFirst(ss', acts', t, u, k, l, one, Loading(1), Loading(0), one, Loading(2));
    ss', acts' := StepFirst(ss', acts', t, u, k, l, one, Loading(2), Loading(0), one, Ended(false));
    ss', acts' := StepSecond(ss', acts', t, u, k, l, one, Ended(false), Loading(0), one, Deleting(0));
    ss', acts' := StepSecond(ss', acts', t, u, k, l, one, Ended(false), Deleting(0), none, Loading(1));
    ss', acts' := StepSecond(ss', acts', t, u, k, l, none, Ended(false), Loading(1), none, Loading(2));
    ss', acts' := StepSecond(ss', acts', t, u, k, l, none, Ended(false), Loading(2), none, Ended(false));
  }

  lemma TwoReleases(t: int, k: string) returns (ss: seq<State>, acts: seq<Action>)
    ensures Run(ss, acts)
    ensures ss[|acts|] == State(map[], [Call(t, [k], true, {}, Ended(true)), Call(t, [k], false, {k}, Deleting(0)), Call(t, [k], false, {k}, Loading(1))])
  {
    var none, one: LockTable := map[], map[k := t];
    var first, second := Call(t, [k], true, {}, Ended(true)), Call(t, [k], false, {k}, Deleting(0));
    assert RowsOf(none, t) == {} && RowsOf(one, t) == {k} && one - {k} == none;
    ss, acts := Then([INIT], [], INIT, Acquire(t, [k]), State(none, [first.(phase := Storing(0))]));
    hide Run, RowsOf;
    ss, acts := Then(ss, acts, State(none, [first.(phase := Storing(0))]), Step(0), State(one, [first.(phase := Storing(1))]));
    ss, acts := Then(ss, acts, State(one, [first.(phase := Storing(1))]), Step(0), State(one, [first]));
    var third := Call(t, [k], false, {k}, Loading(0));
    ss, acts := Then(ss, acts, State(one, [first]), Release(t, [k]), State(one, [first, third]));
    ss, acts := Then(ss, acts, State(one, [first, third]), Release(t, [k]), State(one, [first, third, third]));
    ss, acts := Then(ss, acts, State(one, [first, third, third]), Step(1), State(one, [first, second, third]));
    ss, acts := Then(ss, acts, State(one, [first, second, third]), Step(2), State(one, [first, second, second]));
    ss, acts := Then(ss, acts, State(one, [first, second, second]), Step(2), State(none, [first, second, third.(phase := Loading(1))]));
  }

  /** With two calls of one transaction under way, a row can be taken from another: both releases have
      found it their own; one deletes it, another transaction is granted it, then the other deletes it. */
  lemma RowTaken(t: int, u: int, k: string) returns (ss: seq<State>, acts: seq<Action>)
    requires t != u
    ensures Run(ss, acts) && |acts| > 0 && acts[|acts| - 1] == Step(1) && |ss[|acts|].calls| == 4
    ensures ss[|acts|].calls[1].tid == t && ss[|acts|].calls[3] == Call(u, [k], true, {}, Ended(true))
    ensures RowsOf(ss[|acts| - 1].locks, u) == {k} && RowsOf(ss[|acts|].locks, u) == {}
  {
    var none, one: LockTable := map[], map[k := u];
    assert RowsOf(none, u) == {} && RowsOf(one, u) == {k} && one - {k} == none;
    ss, acts := TwoReleases(t, k);
    hide Run, RowsOf;
    var calls := ss[|acts|].calls;
    var fourth := Call(u, [k], true, {}, Storing(0));
    ss, acts := Then(ss, acts, State(none, calls), Acquire(u, [k]), State(none, calls + [fourth]));
    ss, acts := Then(ss, acts, State(none, calls + [fourth]), Step(3), State(one, calls + [fourth.(phase := Storing(1))]));
    ss, acts := Then(ss, acts, State(one, calls + [fourth.(phase := Storing(1))]), Step(3), State(one, calls + [fourth.(phase := Ended(true))]));
    var all := calls + [fourth.(phase := Ended(true))];
    ss, acts := Then(ss, acts, State(one, all), Step(1), State(none, all[1 := all[1].(phase := Loading(1))]));
  }
}
