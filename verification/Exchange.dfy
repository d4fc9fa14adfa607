/** Requests from the coordinator to the resource managers and the replies to them: `branchCommit`,
    `branchRollback` and `BranchCommunicate` of pkg/tc/server/transaction_coordinator.go against
    `branchCommunicate` of pkg/client/rm/resource_manager.go, one step at a time. Callers, streams, timers
    and resource managers interleave as they like; between them a message may be lost, repeated or overtaken. */
module Exchange {
  import opened Apis
  import opened Storage

  datatype MessageKind = CommitMessage | RollbackMessage

  datatype Request = Request(id: int, kind: MessageKind)

  /** A BranchCommitResponse or a BranchRollbackResponse. */
  datatype Response = Response(kind: MessageKind, success: bool, status: BranchStatus)

  datatype Reply = Reply(id: int, response: Response)

  /** What a call comes to. The assertion of the response's type is checked for commits only. */
  datatype Result = QueueFull | TimedOut | Answered(response: Response) | WrongType | Panicked

  /** Where a caller is: its message made, handed to a stream, its future stored, its future signalled, its
      timer fired, or returned. */
  datatype Phase = Made | HandedOver | Waiting | Signalled | Fired | Returned(result: Result)

  datatype Maybe<T> = Nothing | Just(value: T)

  /** A call with its future's Response. */
  datatype Call = Call(id: int, kind: MessageKind, phase: Phase, response: Maybe<Response>)

  /** Where the goroutine of a stream is with a reply: none, its future loaded, its response assigned, its
      waiter signalled. */
  datatype Stream = Idle | Loaded(call: nat, reply: Reply) | Assigned(call: nat, id: int) | Signalling(id: int)

  /** `streams` holds those that are not idle. */
  datatype State = State(calls: seq<Call>, futures: map<int, nat>, toRM: set<Request>, toTC: set<Reply>, streams: map<nat, Stream>)

  const INIT: State := State([], map[], {}, {}, map[])

  datatype Action =
    | New(kind: MessageKind)
    | Offer(call: nat, taken: bool)
    | StoreFuture(call: nat)
    | Fire(call: nat)
    | GiveUp(call: nat)
    | Answer(request: Request, response: Response)
    | Receive(stream: nat, reply: Reply)
    | Assign(stream: nat)
    | Signal(stream: nat)
    | Delete(stream: nat)
    | Read(call: nat)

  /** `int64(tc.idGenerator.Inc())` */
  function MessageID(n: nat): int { Int64(n + 1) }

  predicate InPhase(s: State, c: nat, phase: Phase) { c < |s.calls| && s.calls[c].phase == phase }

  predicate Enabled(s: State, a: Action)
  {
    match a
    case New(_) => true
    case Offer(c, _) => InPhase(s, c, Made)
    case StoreFuture(c) => InPhase(s, c, HandedOver)
    case Fire(c) => InPhase(s, c, Waiting)
    case GiveUp(c) => InPhase(s, c, Fired)
    case Answer(request, response) =>  // the resource manager's loop: the request's ID, the matching kind
      request in s.toRM && response.kind == request.kind
    case Receive(stream, reply) => stream !in s.streams && reply in s.toTC
    case Assign(stream) => stream in s.streams && s.streams[stream].Loaded? && s.streams[stream].call < |s.calls|
    case Signal(stream) => stream in s.streams && s.streams[stream].Assigned? && InPhase(s, s.streams[stream].call, Waiting)
    case Delete(stream) => stream in s.streams && s.streams[stream].Signalling?
    case Read(c) => InPhase(s, c, Signalled)
  }

  function Move(s: State, c: nat, phase: Phase): State
    requires c < |s.calls|
  {
    s.(calls := s.calls[c := s.calls[c].(phase := phase)])
  }

  /** `resp.Response.(*BranchRollbackResponse)`, or its checked counterpart. */
  function Asserted(c: Call): Result
  {
    if c.response.Just? && c.response.value.kind == c.kind then Answered(c.response.value)
    else if c.kind == CommitMessage then WrongType
    else Panicked
  }

  function Apply(s: State, a: Action): State
    requires Enabled(s, a)
  {
    match a
    case New(kind) => s.(calls := s.calls + [Call(MessageID(|s.calls|), kind, Made, Nothing)])
    case Offer(c, taken) =>
      if !taken then Move(s, c, Phase.Returned(QueueFull))
      else Move(s, c, HandedOver).(toRM := s.toRM + {Request(s.calls[c].id, s.calls[c].kind)})
    case StoreFuture(c) => Move(s, c, Waiting).(futures := s.futures[s.calls[c].id := c])
    case Fire(c) => Move(s, c, Fired)
    case GiveUp(c) => Move(s, c, Phase.Returned(TimedOut)).(futures := s.futures - {s.calls[c].id})
    case Answer(request, response) => s.(toTC := s.toTC + {Reply(request.id, response)})
    case Receive(stream, reply) =>
      if reply.id in s.futures then s.(streams := s.streams[stream := Loaded(s.futures[reply.id], reply)]) else s
    case Assign(stream) =>
      var c, reply := s.streams[stream].call, s.streams[stream].reply;
      s.(calls := s.calls[c := s.calls[c].(response := Just(reply.response))], streams := s.streams[stream := Assigned(c, reply.id)])
    case Signal(stream) =>
      Move(s, s.streams[stream].call, Signalled).(streams := s.streams[stream := Signalling(s.streams[stream].id)])
    case Delete(stream) => s.(futures := s.futures - {s.streams[stream].id}, streams := s.streams - {stream})
    case Read(c) => Move(s, c, Phase.Returned(Asserted(s.calls[c])))
  }

  // What every interleaving keeps ------------------------------------------------------------------------

  /** Every message in flight, loaded or assigned is about the call whose ID it carries, and of its kind. */
  predicate Matches(s: State, c: nat, id: int, kind: MessageKind)
  {
    c < |s.calls| && s.calls[c].id == id && s.calls[c].kind == kind
  }

  predicate Known(s: State, id: int, kind: MessageKind)
  {
    exists c :: 0 <= c < |s.calls| && Matches(s, c, id, kind)
  }

  /** A call's phases in their order. */
  function Rank(phase: Phase): nat
  {
    match phase
    case Made => 0
    case HandedOver => 1
    case Waiting => 2
    case Signalled => 3
    case Fired => 3
    case Returned(_) => 4
  }

  predicate CallsOk(s: State)
  {
    && (forall c :: 0 <= c < |s.calls| ==> s.calls[c].id == MessageID(c))
    && (forall c :: 0 <= c < |s.calls| && s.calls[c].response.Just? ==> s.calls[c].response.value.kind == s.calls[c].kind)
    && (forall c :: 0 <= c < |s.calls| && s.calls[c].phase == Signalled ==> s.calls[c].response.Just?)
    && (forall c :: 0 <= c < |s.calls| && s.calls[c].phase.Returned? ==> s.calls[c].phase.result != WrongType && s.calls[c].phase.result != Panicked)
  }

  /** The call has stored its future, and so it waits, or has waited. */
  predicate HasWaited(s: State, c: nat)
  {
    c < |s.calls| && Rank(s.calls[c].phase) >= 2
  }

  predicate FuturesOk(s: State)
  {
    forall id :: id in s.futures ==> HasWaited(s, s.futures[id]) && s.calls[s.futures[id]].id == id
  }

  predicate RequestsOk(s: State)
  {
    forall q :: q in s.toRM ==> Known(s, q.id, q.kind)
  }

  predicate RepliesOk(s: State)
  {
    forall r :: r in s.toTC ==> Known(s, r.id, r.response.kind)
  }

  predicate StreamOk(s: State, stream: Stream)
  {
    && (stream.Loaded? ==> HasWaited(s, stream.call) && Matches(s, stream.call, stream.reply.id, stream.reply.response.kind))
    && (stream.Assigned? ==> HasWaited(s, stream.call) && s.calls[stream.call].id == stream.id && s.calls[stream.call].response.Just?)
  }

  predicate StreamsOk(s: State)
  {
    forall k :: k in s.streams ==> StreamOk(s, s.streams[k])
  }

  /** A future's response, and what a caller returns, was in a reply under the caller's ID. */
  predicate HeardOk(s: State)
  {
    && (forall k :: k in s.streams && s.streams[k].Loaded? ==> s.streams[k].reply in s.toTC)
    && (forall c :: 0 <= c < |s.calls| && s.calls[c].response.Just? ==> Reply(s.calls[c].id, s.calls[c].response.value) in s.toTC)
    && (forall c :: 0 <= c < |s.calls| && s.calls[c].phase.Returned? && s.calls[c].phase.result.Answered? ==>
          Reply(s.calls[c].id, s.calls[c].phase.result.response) in s.toTC
          && s.calls[c].phase.result.response.kind == s.calls[c].kind)
  }

  predicate Inv(s: State)
  {
    CallsOk(s) && FuturesOk(s) && RequestsOk(s) && RepliesOk(s) && StreamsOk(s) && HeardOk(s)
  }

  /** Fewer messages than the counter has values have different IDs. */
  lemma IDsDiffer(c: nat, d: nat)
    requires c < UINT64 && d < UINT64 && MessageID(c) == MessageID(d)
    ensures c == d
  {
  }

  /** Calls keep their IDs and kinds, and only gain a response and phases. */
  predicate Keeps(s: State, s': State)
  {
    && |s.calls| <= |s'.calls|
    && forall c :: 0 <= c < |s.calls| ==>
        && s'.calls[c].id == s.calls[c].id && s'.calls[c].kind == s.calls[c].kind
        && (s.calls[c].response.Just? ==> s'.calls[c].response.Just?)
        && Rank(s.calls[c].phase) <= Rank(s'.calls[c].phase)
  }

  lemma StepKeeps(s: State, a: Action)
    requires Enabled(s, a)
    ensures Keeps(s, Apply(s, a))
  {
  }

  lemma KeptMatches(s: State, s': State)
    requires Keeps(s, s') && FuturesOk(s) && RequestsOk(s) && RepliesOk(s) && StreamsOk(s)
    ensures forall id :: id in s.futures ==> HasWaited(s', s.futures[id]) && s'.calls[s.futures[id]].id == id
    ensures forall q :: q in s.toRM ==> Known(s', q.id, q.kind)
    ensures forall r :: r in s.toTC ==> Known(s', r.id, r.response.kind)
    ensures forall k :: k in s.streams ==> StreamOk(s', s.streams[k])
  {
    forall q | q in s.toRM ensures Known(s', q.id, q.kind) {
      var c :| 0 <= c < |s.calls| && Matches(s, c, q.id, q.kind);
      assert Matches(s', c, q.id, q.kind);
    }
    forall r | r in s.toTC ensures Known(s', r.id, r.response.kind) {
      var c :| 0 <= c < |s.calls| && Matches(s, c, r.id, r.response.kind);
      assert Matches(s', c, r.id, r.response.kind);
    }
  }

  lemma CallsStep(s: State, a: Action)
    requires Inv(s) && Enabled(s, a)
    ensures CallsOk(Apply(s, a))
  {
    hide FuturesOk, RequestsOk, RepliesOk, HeardOk;
  }

  /** The reply loaded is the future's own, since its ID is. */
  lemma ReceiveOk(s: State, reply: Reply)
    requires Inv(s) && |s.calls| <= UINT64 && reply in s.toTC && reply.id in s.futures
    ensures Matches(s, s.futures[reply.id], reply.id, reply.response.kind)
  {
    var c :| 0 <= c < |s.calls| && Matches(s, c, reply.id, reply.response.kind);
    IDsDiffer(c, s.futures[reply.id]);
  }

  lemma HeardStep(s: State, a: Action)
    requires Inv(s) && Enabled(s, a)
    ensures HeardOk(Apply(s, a)) && s.toTC <= Apply(s, a).toTC
  {
    hide FuturesOk, RequestsOk, RepliesOk, CallsOk;
  }

  lemma MessagesStep(s: State, a: Action)
    requires Inv(s) && Enabled(s, a)
    ensures RequestsOk(Apply(s, a)) && RepliesOk(Apply(s, a))
  {
    var s' := Apply(s, a);
    StepKeeps(s, a);
    KeptMatches(s, s');
    hide CallsOk, HeardOk, FuturesOk, StreamsOk;
    match a
    case Offer(c, taken) =>
      assert Matches(s', c, s.calls[c].id, s.calls[c].kind);
    case Answer(request, response) =>
      var c :| 0 <= c < |s.calls| && Matches(s, c, request.id, request.kind);
      assert Matches(s', c, request.id, response.kind);
    case _ =>
  }

  lemma StreamsStep(s: State, a: Action)
    requires Inv(s) && Enabled(s, a) && |s.calls| <= UINT64
    ensures FuturesOk(Apply(s, a)) && StreamsOk(Apply(s, a))
  {
    StepKeeps(s, a);
    KeptMatches(s, Apply(s, a));
    if a.Receive? && a.reply.id in s.futures {
      ReceiveOk(s, a.reply);
    }
    hide CallsOk, HeardOk, RequestsOk, RepliesOk;
  }

  lemma StepInv(s: State, a: Action)
    requires Inv(s) && Enabled(s, a) && |s.calls| <= UINT64
    ensures Inv(Apply(s, a))
  {
    CallsStep(s, a);
    MessagesStep(s, a);
    StreamsStep(s, a);
    HeardStep(s, a);
  }

  // Whole runs ---------------------------------------------------------------------------------------------

  /** A run in which the ID counter has not come round. */
  predicate Run(ss: seq<State>, acts: seq<Action>)
  {
    && |ss| == |acts| + 1 && ss[0] == INIT
    && (forall i :: 0 <= i < |acts| ==> Enabled(ss[i], acts[i]) && ss[i + 1] == Apply(ss[i], acts[i]))
    && (forall i :: 0 <= i < |acts| ==> |ss[i].calls| <= UINT64)
  }

  lemma {:induction false} RunInv(ss: seq<State>, acts: seq<Action>, i: nat)
    requires Run(ss, acts) && i < |ss|
    ensures Inv(ss[i])
  {
    if i > 0 {
      RunInv(ss, acts, i - 1);
      StepInv(ss[i - 1], acts[i - 1]);
    }
  }

  /** Before state i, the resource manager answered the request with this ID, and its kind, by `response`. */
  predicate HasAnswered(acts: seq<Action>, i: nat, id: int, response: Response)
  {
    exists n :: 0 <= n < i && n < |acts| && acts[n] == Answer(Request(id, response.kind), response)
  }

  lemma {:induction false} RepliesAreAnswers(ss: seq<State>, acts: seq<Action>, i: nat, reply: Reply)
    requires Run(ss, acts) && i < |ss| && reply in ss[i].toTC
    ensures HasAnswered(acts, i, reply.id, reply.response)
  {
    hide Enabled;
    if i > 0 {
      if reply in ss[i - 1].toTC {
        RepliesAreAnswers(ss, acts, i - 1, reply);
      } else {
        NewReply(ss[i - 1], acts[i - 1], reply);
      }
    }
  }

  lemma NewReply(s: State, a: Action, reply: Reply)
    requires Enabled(s, a) && reply !in s.toTC && reply in Apply(s, a).toTC
    ensures a == Answer(Request(reply.id, reply.response.kind), reply.response)
  {
  }

  /** Whoever returns an answer got it from the resource manager's answer to that very message, of the
      type asked for. So the unchecked type assertion of `branchRollback` never fails, nor does the
      checked one of `branchCommit`. */
  lemma OwnAnswer(ss: seq<State>, acts: seq<Action>, i: nat, c: nat)
    requires Run(ss, acts) && i < |ss| && c < |ss[i].calls| && ss[i].calls[c].phase.Returned?
    ensures ss[i].calls[c].phase.result != Panicked && ss[i].calls[c].phase.result != WrongType
    ensures
      var result := ss[i].calls[c].phase.result;
      result.Answered? ==> result.response.kind == ss[i].calls[c].kind && HasAnswered(acts, i, MessageID(c), result.response)
  {
    RunInv(ss, acts, i);
    var result := ss[i].calls[c].phase.result;
    if result.Answered? {
      RepliesAreAnswers(ss, acts, i, Reply(MessageID(c), result.response));
    }
  }

  /** The stream that signals a waiter holds a reply with the waiter's own ID. */
  lemma SignalledByOwnReply(ss: seq<State>, acts: seq<Action>, i: nat)
    requires Run(ss, acts) && i < |acts| && acts[i].Signal?
    ensures
      var stream := ss[i].streams[acts[i].stream];
      stream.call < |ss[i].calls| && stream.id == MessageID(stream.call) && ss[i].calls[stream.call].response.Just?
  {
    RunInv(ss, acts, i);
    assert StreamOk(ss[i], ss[i].streams[acts[i].stream]);
  }

  lemma StepRank(s: State, a: Action, c: nat)
    requires Enabled(s, a) && c < |s.calls|
    ensures c < |Apply(s, a).calls| && Rank(s.calls[c].phase) <= Rank(Apply(s, a).calls[c].phase)
    ensures a.Signal? && s.streams[a.stream].call == c ==> Rank(s.calls[c].phase) == 2 && Rank(Apply(s, a).calls[c].phase) == 3
  {
  }

  lemma {:induction false} RankGrows(ss: seq<State>, acts: seq<Action>, i: nat, j: nat, c: nat)
    requires Run(ss, acts) && i <= j < |ss| && c < |ss[i].calls|
    ensures c < |ss[j].calls| && Rank(ss[i].calls[c].phase) <= Rank(ss[j].calls[c].phase)
    decreases j
  {
    hide Enabled, Apply, Rank;
    if i < j {
      RankGrows(ss, acts, i, j - 1, c);
      StepRank(ss[j - 1], acts[j - 1], c);
    }
  }

  predicate Wakes(s: State, a: Action, c: nat)
  {
    a.Signal? && Enabled(s, a) && s.streams[a.stream].call == c
  }

  /** A waiter is woken at most once, whatever is repeated on the way. */
  lemma WokenOnce(ss: seq<State>, acts: seq<Action>, i: nat, j: nat, c: nat)
    requires Run(ss, acts) && i < j < |acts|
    ensures !(Wakes(ss[i], acts[i], c) && Wakes(ss[j], acts[j], c))
  {
    if Wakes(ss[i], acts[i], c) && Wakes(ss[j], acts[j], c) {
      StepRank(ss[i], acts[i], c);
      RankGrows(ss, acts, i + 1, j, c);
      StepRank(ss[j], acts[j], c);
    }
  }

  lemma {:induction false} StaysBlocked(ss: seq<State>, acts: seq<Action>, i: nat, j: nat, stream: nat)
    requires Run(ss, acts) && i <= j < |ss| && stream in ss[i].streams && ss[i].streams[stream].Assigned?
    requires var c := ss[i].streams[stream].call; c < |ss[i].calls| && Rank(ss[i].calls[c].phase) > 2
    ensures stream in ss[j].streams && ss[j].streams[stream] == ss[i].streams[stream]
    decreases j
  {
    if i < j {
      StaysBlocked(ss, acts, i, j - 1, stream);
      RankGrows(ss, acts, i, j - 1, ss[i].streams[stream].call);
      StillBlocked(ss[j - 1], acts[j - 1], stream);
    }
  }

  lemma StillBlocked(s: State, a: Action, stream: nat)
    requires Enabled(s, a) && stream in s.streams && s.streams[stream].Assigned?
    requires var c := s.streams[stream].call; c < |s.calls| && Rank(s.calls[c].phase) > 2
    ensures stream in Apply(s, a).streams && Apply(s, a).streams[stream] == s.streams[stream]
  {
  }

  /** The channel of a future has no buffer. In every state of every run, a stream that has assigned a
      response can go on if its waiter still waits; if the waiter has left, by its timer or woken by another
      stream, the stream stays there for ever, whatever comes. */
  lemma BlockedForEver(ss: seq<State>, acts: seq<Action>, i: nat, stream: nat)
    requires Run(ss, acts) && i < |ss| && stream in ss[i].streams && ss[i].streams[stream].Assigned?
    ensures ss[i].streams[stream].call < |ss[i].calls|
    ensures
      if ss[i].calls[ss[i].streams[stream].call].phase == Waiting then
        Enabled(ss[i], Signal(stream)) && Apply(ss[i], Signal(stream)).streams[stream].Signalling?
      else
        forall j :: i <= j < |ss| ==>
          && stream in ss[j].streams && ss[j].streams[stream] == ss[i].streams[stream]
          && !Enabled(ss[j], Signal(stream)) && !Enabled(ss[j], Delete(stream))
  {
    RunInv(ss, acts, i);
    var c := ss[i].streams[stream].call;
    assert StreamOk(ss[i], ss[i].streams[stream]);
    if ss[i].calls[c].phase != Waiting {
      forall j | i <= j < |ss|
        ensures stream in ss[j].streams && ss[j].streams[stream] == ss[i].streams[stream] && !Enabled(ss[j], Signal(stream))
      {
        StaysBlocked(ss, acts, i, j, stream);
        RankGrows(ss, acts, i, j, c);
      }
    }
  }

  lemma Extend(ss: seq<State>, acts: seq<Action>, a: Action) returns (ss': seq<State>, acts': seq<Action>)
    requires Run(ss, acts) && Enabled(ss[|acts|], a) && |ss[|acts|].calls| <= UINT64
    ensures Run(ss', acts') && ss'[|acts'|] == Apply(ss[|acts|], a)
  {
    ss', acts' := ss + [Apply(ss[|acts|], a)], acts + [a];
  }

  /** One commit whose reply has just reached stream 0. */
  function Replied(phase: Phase, response: Maybe<Response>, futures: map<int, nat>, requests: set<Request>, replies: set<Reply>,
                   streams: map<nat, Stream>): State
  {
    State([Call(MessageID(0), CommitMessage, phase, response)], futures, requests, replies, streams)
  }

  lemma CommitReplied(r: Response) returns (ss: seq<State>, acts: seq<Action>)
    requires r.kind == CommitMessage
    ensures Run(ss, acts)
    ensures ss[|acts|] == Replied(Waiting, Nothing, map[MessageID(0) := 0], {Request(MessageID(0), CommitMessage)}, {Reply(MessageID(0), r)}, map[])
  {
    var q := Request(MessageID(0), CommitMessage);
    ss, acts := [INIT], [];
    ss, acts := Extend(ss, acts, New(CommitMessage));
    hide Run, MessageID;
    assert ss[|acts|] == Replied(Made, Nothing, map[], {}, {}, map[]);
    ss, acts := Extend(ss, acts, Offer(0, true));
    assert ss[|acts|] == Replied(HandedOver, Nothing, map[], {q}, {}, map[]);
    ss, acts := Extend(ss, acts, StoreFuture(0));
    assert ss[|acts|] == Replied(Waiting, Nothing, map[MessageID(0) := 0], {q}, {}, map[]);
    ss, acts := Extend(ss, acts, Answer(q, r));
    assert ss[|acts|] == Replied(Waiting, Nothing, map[MessageID(0) := 0], {q}, {Reply(MessageID(0), r)}, map[]);
  }

  /** Such a run: the timer fires between the load of the future and the signal. */
  lemma StreamCanBlock() returns (ss: seq<State>, acts: seq<Action>)
    ensures Run(ss, acts) && 0 in ss[|acts|].streams && ss[|acts|].streams[0] == Assigned(0, MessageID(0))
    ensures |ss[|acts|].calls| == 1 && ss[|acts|].calls[0].phase == Fired
  {
    var r := Response(CommitMessage, true, PhaseTwoCommitted);
    var reply, futures, requests := Reply(MessageID(0), r), map[MessageID(0) := 0], {Request(MessageID(0), CommitMessage)};
    ss, acts := CommitReplied(r);
    hide Run, MessageID;
    ss, acts := Extend(ss, acts, Receive(0, reply));
    assert ss[|acts|] == Replied(Waiting, Nothing, futures, requests, {reply}, map[0 := Loaded(0, reply)]);
    ss, acts := Extend(ss, acts, Fire(0));
    assert ss[|acts|] == Replied(Fired, Nothing, futures, requests, {reply}, map[0 := Loaded(0, reply)]);
    ss, acts := Extend(ss, acts, Assign(0));
    assert ss[|acts|] == Replied(Fired, Just(r), futures, requests, {reply}, map[0 := Assigned(0, MessageID(0))]);
  }

  // Futures -----------------------------------------------------------------------------------------------

  /** Woken by a stream, and perhaps returned since. */
  predicate Woken(phase: Phase)
  {
    phase.Signalled? || (phase.Returned? && phase.result != QueueFull && phase.result != TimedOut)
  }

  predicate BeingDeleted(s: State, id: int) { exists k :: k in s.streams && s.streams[k] == Signalling(id) }

  predicate HasWoken(s: State, id: int)
  {
    exists c :: 0 <= c < |s.calls| && s.calls[c].id == id && Woken(s.calls[c].phase)
  }

  /** A stream that has signalled has woken the call with its ID, and no other stream has. */
  predicate SignalsOk(s: State)
  {
    && (forall k :: k in s.streams && s.streams[k].Signalling? ==> HasWoken(s, s.streams[k].id))
    && (forall k, l :: k in s.streams && l in s.streams && s.streams[k].Signalling? && s.streams[l] == s.streams[k] ==> k == l)
  }

  /** The future of a call is stored exactly while the call waits, or its timer has fired and it has not
      returned yet, or the stream that has woken it has not deleted it yet. */
  predicate FutureOk(s: State, c: nat)
    requires c < |s.calls|
  {
    s.calls[c].id in s.futures <==>
      s.calls[c].phase == Waiting || s.calls[c].phase == Fired || BeingDeleted(s, s.calls[c].id)
  }

  predicate FuturesExact(s: State)
  {
    SignalsOk(s) && forall c :: 0 <= c < |s.calls| ==> FutureOk(s, c)
  }

  lemma OneID(s: State, c: nat, d: nat)
    requires CallsOk(s) && |s.calls| <= UINT64 && c < |s.calls| && d < |s.calls| && s.calls[c].id == s.calls[d].id
    ensures c == d
  {
    IDsDiffer(c, d);
  }

  lemma StaysWoken(s: State, a: Action, id: int)
    requires Enabled(s, a) && HasWoken(s, id) && CallsOk(s)
    ensures HasWoken(Apply(s, a), id)
  {
    var c :| 0 <= c < |s.calls| && s.calls[c].id == id && Woken(s.calls[c].phase);
    var s' := Apply(s, a);
    assert s'.calls[c].id == id && Woken(s'.calls[c].phase);
  }

  lemma SignalWakes(s: State, k: nat)
    requires Inv(s) && SignalsOk(s) && Enabled(s, Signal(k)) && |s.calls| <= UINT64
    ensures HasWoken(Apply(s, Signal(k)), s.streams[k].id)
    ensures forall l :: l in s.streams ==> s.streams[l] != Signalling(s.streams[k].id)
  {
    assert StreamOk(s, s.streams[k]);
    var s' := Apply(s, Signal(k));
    assert s'.calls[s.streams[k].call].id == s.streams[k].id && Woken(s'.calls[s.streams[k].call].phase);
    forall l | l in s.streams ensures s.streams[l] != Signalling(s.streams[k].id) {
      if s.streams[l] == Signalling(s.streams[k].id) {
        assert HasWoken(s, s.streams[l].id);
        var c :| 0 <= c < |s.calls| && s.calls[c].id == s.streams[l].id && Woken(s.calls[c].phase);
        OneID(s, c, s.streams[k].call);
      }
    }
  }

  lemma SignalsStep(s: State, a: Action)
    requires Inv(s) && SignalsOk(s) && Enabled(s, a) && |s.calls| <= UINT64
    ensures SignalsOk(Apply(s, a))
  {
    if a.Signal? {
      SignalWakes(s, a.stream);
    }
    var s' := Apply(s, a);
    forall k | k in s'.streams && s'.streams[k].Signalling? ensures HasWoken(s', s'.streams[k].id) {
      if a != Signal(k) {
        StaysWoken(s, a, s.streams[k].id);
      }
    }
    hide HasWoken, FuturesOk, RequestsOk, RepliesOk, StreamsOk, HeardOk, CallsOk;
  }

  /** Only a woken call's future is being deleted. */
  lemma DeletedIsWoken(s: State, c: nat)
    requires CallsOk(s) && SignalsOk(s) && |s.calls| <= UINT64 && c < |s.calls| && BeingDeleted(s, s.calls[c].id)
    ensures Woken(s.calls[c].phase)
  {
    var k :| k in s.streams && s.streams[k] == Signalling(s.calls[c].id);
    var d :| 0 <= d < |s.calls| && s.calls[d].id == s.streams[k].id && Woken(s.calls[d].phase);
    OneID(s, c, d);
  }

  /** What the step does to the streams that delete a call's future. */
  lemma StepDeletes(s: State, a: Action, id: int)
    requires SignalsOk(s) && Enabled(s, a)
    ensures BeingDeleted(Apply(s, a), id) <==>
        if a.Signal? && s.streams[a.stream].id == id then true
        else if a.Delete? && s.streams[a.stream].id == id then false
        else BeingDeleted(s, id)
  {
    var s' := Apply(s, a);
    if a.Signal? && s.streams[a.stream].id == id {
      assert s'.streams[a.stream] == Signalling(id);
    } else if BeingDeleted(s, id) {
      var k :| k in s.streams && s.streams[k] == Signalling(id);
      assert !a.Delete? || a.stream != k ==> k in s'.streams && s'.streams[k] == Signalling(id);
    }
  }

  lemma FutureStep(s: State, a: Action, c: nat)
    requires Inv(s) && FuturesExact(s) && Enabled(s, a) && |s.calls| <= UINT64 && c < |s.calls|
    ensures FutureOk(Apply(s, a), c)
  {
    var s' := Apply(s, a);
    var id := s.calls[c].id;
    StepDeletes(s, a, id);
    assert FutureOk(s, c);
    if BeingDeleted(s, id) {
      DeletedIsWoken(s, c);
    }
    hide BeingDeleted, SignalsOk, RequestsOk, RepliesOk, HeardOk;
    match a
    case StoreFuture(d) =>
      if s.calls[d].id == id { OneID(s, c, d); }
    case GiveUp(d) =>
      if s.calls[d].id == id { OneID(s, c, d); }
    case Signal(k) =>
      assert StreamOk(s, s.streams[k]);
      if s.streams[k].id == id { OneID(s, c, s.streams[k].call); }
    case _ =>
  }

  lemma NewCall(s: State, kind: MessageKind)
    requires Inv(s) && FuturesExact(s) && |s.calls| < UINT64
    ensures FutureOk(Apply(s, New(kind)), |s.calls|)
  {
    var s' := Apply(s, New(kind));
    var id := MessageID(|s.calls|);
    if id in s.futures {
      IDsDiffer(s.futures[id], |s.calls|);
    }
    if BeingDeleted(s', id) {
      var k :| k in s.streams && s.streams[k] == Signalling(id);
      var d :| 0 <= d < |s.calls| && s.calls[d].id == id && Woken(s.calls[d].phase);
      IDsDiffer(d, |s.calls|);
    }
  }

  lemma OnlyNewAdds(s: State, a: Action)
    requires Enabled(s, a)
    ensures |Apply(s, a).calls| == if a.New? then |s.calls| + 1 else |s.calls|
  {
  }

  /** In every state of every run, no future is missing and none is left behind. */
  lemma {:induction false} FuturesAreExact(ss: seq<State>, acts: seq<Action>, i: nat)
    requires Run(ss, acts) && i < |ss| && |ss[i].calls| <= UINT64
    ensures FuturesExact(ss[i])
  {
    hide FutureOk, SignalsOk, Enabled;
    if i == 0 {
      NoSignals();
    } else {
      var s, a := ss[i - 1], acts[i - 1];
      assert Enabled(s, a) && ss[i] == Apply(s, a);
      StepKeeps(s, a);
      RunInv(ss, acts, i - 1);
      FuturesAreExact(ss, acts, i - 1);
      SignalsStep(s, a);
      forall c | 0 <= c < |ss[i].calls| ensures FutureOk(ss[i], c) {
        if c < |s.calls| {
          FutureStep(s, a, c);
        } else {
          OnlyNewAdds(s, a);
          NewCall(s, a.kind);
        }
      }
    }
  }

  lemma NoSignals()
    ensures SignalsOk(INIT)
  {
  }

  // What the caller makes of it ------------------------------------------------------------------------

  /** What `branchCommit` or `branchRollback` returns for a branch with status `current`. */
  function AnswerOf(result: Result, current: BranchStatus): Storage.Answer
  {
    match result
    case QueueFull => Storage.Answer.Returned(current)
    case TimedOut => CallError
    case Answered(response) => if response.success then Storage.Answer.Returned(response.status) else CallError
    case WrongType => CallError
    case Panicked => CallError
  }

  /** A status is returned for one of two reasons: no stream took the message and the branch has it
      already, or the resource manager answered this very message with it. */
  lemma WhereAnswersComeFrom(ss: seq<State>, acts: seq<Action>, i: nat, c: nat, current: BranchStatus, status: BranchStatus)
    requires Run(ss, acts) && i < |ss| && c < |ss[i].calls| && ss[i].calls[c].phase.Returned?
    requires AnswerOf(ss[i].calls[c].phase.result, current) == Storage.Answer.Returned(status)
    ensures
      || (ss[i].calls[c].phase.result == QueueFull && status == current)
      || HasAnswered(acts, i, MessageID(c), Response(ss[i].calls[c].kind, true, status))
  {
    OwnAnswer(ss, acts, i, c);
    var result := ss[i].calls[c].phase.result;
    if result.Answered? {
      assert result.response == Response(ss[i].calls[c].kind, true, status);
    }
  }

  /** Of a call that has returned: it gives a status exactly if no stream took its message, and then the
      branch's own, or if the resource manager reports success, and then the one it reports. */
  lemma WhatItReturns(result: Result, current: BranchStatus, status: BranchStatus)
    ensures AnswerOf(result, current) == Storage.Answer.Returned(status) <==>
        (result == QueueFull && status == current) || (result.Answered? && result.response.success && result.response.status == status)
  {
  }

  /** A call that was signalled returns its future's response. */
  lemma ReadsItsFuture(ss: seq<State>, acts: seq<Action>, i: nat, c: nat)
    requires Run(ss, acts) && i < |acts| && acts[i] == Read(c)
    ensures c < |ss[i].calls| && c < |ss[i + 1].calls| && ss[i].calls[c].response.Just?
    ensures ss[i + 1].calls[c].phase == Phase.Returned(Answered(ss[i].calls[c].response.value))
  {
    RunInv(ss, acts, i);
    assert Enabled(ss[i], acts[i]);
  }
}
