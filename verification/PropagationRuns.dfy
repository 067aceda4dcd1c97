/** What the propagation protocol does for a request as a whole: what was asked is what is
    answered, threads are given back, and a request runs through from entry to end. */
module PropagationRuns {
  import opened Propagation
  import opened PropagationInvariant
  import opened PropagationTheorems
  import opened Wrappers

  // ---------- what was asked ----------

  /** An answer settles the request's status for good. */
  lemma {:induction false} AnswerSettles(s: State, steps: seq<Step>, r: RequestId)
    requires ValidRun(s, steps) && r in s.requests && s.requests[r].point.Rank() >= Answered.Rank()
    ensures var q := s.requests[r];
      && r in Final(s, steps).requests && Final(s, steps).requests[r].point.Rank() >= Answered.Rank()
      && Final(s, steps).requests[r].statusOk == q.statusOk && Final(s, steps).requests[r].clientSpan == q.clientSpan
    decreases |steps|
  {
    if steps != [] {
      AnswerKept(s, steps[0], r);
      AnsweredStays(s, steps[0], r);
      AnswerSettles(Apply(s, steps[0]), steps[1..], r);
    }
  }

  lemma AnsweredStays(s: State, step: Step, r: RequestId)
    requires Enabled(s, step) && r in s.requests && s.requests[r].point.Rank() >= Answered.Rank()
    ensures r in Apply(s, step).requests && Apply(s, step).requests[r].point.Rank() >= Answered.Rank()
  {
  }

  /** Whatever runs after a request enters, the request is the one that was asked for, on the
      thread it came in on. Once it is answered, the handler ends by throwing exactly when its
      client span has failed and a single user was asked for or posted. */
  lemma AskedIsAnswered(s: State, enter: Step, steps: seq<Step>)
    requires Reachable(s) && enter.EnterRest? && Enabled(s, enter) && ValidRun(Apply(s, enter), steps)
    ensures var s' := Final(Apply(s, enter), steps); var r := enter.request;
      && r in s'.requests
      && s'.requests[r].operation == enter.operation && s'.requests[r].thread == enter.thread
      && s'.requests[r].entry == StackOf(s, enter.thread) && s'.requests[r].restSpan == |s.spans|
      && (s'.requests[r].point.Rank() >= Answered.Rank() ==>
            && s'.requests[r].clientSpan < |s'.spans|
            && (OutcomeOf(s'.requests[r]).Thrown? <==>
                  s'.spans[s'.requests[r].clientSpan].status == StatusError && !enter.operation.ReadUsers?))
  {
    var r := enter.request;
    StepThenRun(s, enter, steps);
    RequestFixed(Apply(s, enter), steps, r);
    var s' := Final(Apply(s, enter), steps);
    if s'.requests[r].point.Rank() >= Answered.Rank() {
      OutcomeIsTrue(s', r);
    }
  }

  /** The status that a call is answered with decides, from then on and whatever else runs, the
      client span and whether the handler throws. */
  lemma AnswerDecides(s: State, answer: Step, steps: seq<Step>)
    requires Reachable(s) && answer.Answer? && Enabled(s, answer) && ValidRun(Apply(s, answer), steps)
    ensures var s' := Final(Apply(s, answer), steps); var r := answer.request;
      && r in s.requests && r in s'.requests && s'.requests[r].clientSpan < |s'.spans|
      && s'.spans[s'.requests[r].clientSpan].status == (if answer.statusOk then StatusOk else StatusError)
      && (OutcomeOf(s'.requests[r]).Thrown? <==> !answer.statusOk && !s.requests[r].operation.ReadUsers?)
  {
    var r := answer.request;
    StepThenRun(s, answer, steps);
    var s1 := Apply(s, answer);
    RequestFixed(s1, steps, r);
    AnswerSettles(s1, steps, r);
    ReachableParts(Final(s1, steps), r);
  }

  // ---------- threads ----------

  predicate RestUnderWay(s: State, r: RequestId, t: ThreadId) {
    r in s.requests && s.requests[r].thread == t && !s.requests[r].point.Finished?
  }

  predicate RpcUnderWay(s: State, r: RequestId, t: ThreadId) {
    r in s.calls && s.calls[r].thread == t && Extracted.Rank() <= s.calls[r].point.Rank() < Replied.Rank()
  }

  /** A thread that runs something runs a handler under way on it. */
  predicate RunsHandler(s: State, t: ThreadId) {
    t in s.running ==>
      match s.running[t]
      case RestTask(r) => RestUnderWay(s, r, t)
      case RpcTask(r) => RpcUnderWay(s, r, t)
  }

  lemma StepRunsHandler(s: State, step: Step, t: ThreadId)
    requires Enabled(s, step) && RunsHandler(s, t)
    requires step.request in s.requests ==> RequestOk(s, step.request)
    ensures RunsHandler(Apply(s, step), t)
  {
    hide RequestOk, NewSpan, Detach, InTable;
    if step.Send? {
      SentFirst(s, step.request);
    }
  }

  lemma SentFirst(s: State, r: RequestId)
    requires AtGateway(s, r, Injected) && RequestOk(s, r)
    ensures r !in s.calls
  {
  }

  lemma {:induction false} RunRunsHandlers(s: State, steps: seq<Step>, t: ThreadId)
    requires Reachable(s) && ValidRun(s, steps) && RunsHandler(s, t)
    ensures RunsHandler(Final(s, steps), t)
    decreases |steps|
  {
    hide Apply, Enabled, RunsHandler, RequestOk, CallOk;
    if steps != [] {
      ReachableParts(s, steps[0].request);
      StepRunsHandler(s, steps[0], t);
      StepThenRun(s, steps[0], []);
      RunRunsHandlers(Apply(s, steps[0]), steps[1..], t);
    }
  }

  lemma InitReachable(s: State)
    requires Init(s)
    ensures Reachable(s)
  {
    assert ValidRun(s, []) && s == Final(s, []);
  }

  lemma ReachableRunsHandler(s: State, t: ThreadId)
    requires Reachable(s)
    ensures RunsHandler(s, t)
  {
    var s0, steps :| Init(s0) && ValidRun(s0, steps) && s == Final(s0, steps);
    InitReachable(s0);
    RunRunsHandlers(s0, steps, t);
  }

  /** In every reachable state a new request can enter on a thread, and an arrived call be taken
      up there, exactly when no handler is under way on that thread: a handler that ends, by
      return or throw, gives its thread back, and no thread runs two. */
  lemma ThreadFreeIff(s: State, t: ThreadId, r: RequestId, operation: Operation, q: RequestId, header: bool)
    requires Reachable(s)
    ensures var free := forall p :: !RestUnderWay(s, p, t) && !RpcUnderWay(s, p, t);
      && (r !in s.requests ==> (Enabled(s, EnterRest(r, t, operation)) <==> free))
      && (AtServer(s, q, InFlight) ==> (Enabled(s, Extract(q, t, header)) <==> free))
  {
    hide RequestOk, CallOk, TableOk;
    ReachableRunsHandler(s, t);
    ReachableParts(s, r);
    FreeThreadInTable(s, t);
    forall p
      ensures RestUnderWay(s, p, t) || RpcUnderWay(s, p, t) ==> t in s.running
    {
      ReachableParts(s, p);
      UnderWayRuns(s, p, t);
    }
  }

  lemma UnderWayRuns(s: State, r: RequestId, t: ThreadId)
    requires (r in s.requests ==> RequestOk(s, r)) && (r in s.calls ==> CallOk(s, r))
    ensures RestUnderWay(s, r, t) || RpcUnderWay(s, r, t) ==> t in s.running
  {
  }

  lemma FreeThreadInTable(s: State, t: ThreadId)
    requires TableOk(s)
    ensures InTable(s, StackOf(s, t))
  {
  }

  // ---------- a request from entry to end ----------

  function GatewayStart(r: RequestId, t: ThreadId, operation: Operation): seq<Step> {
    [EnterRest(r, t, operation), CountRest(r), StartClientSpan(r), Inject(r), Send(r)]
  }

  function ServerStart(r: RequestId, u: ThreadId, header: bool): seq<Step> {
    [Extract(r, u, header), StartServerSpan(r), CountRpc(r)]
  }

  function ServerEnd(r: RequestId, ok: bool): seq<Step> {
    [Serve(r, ok), CloseServerScope(r)]
  }

  function GatewayEnd(r: RequestId, answered: bool): seq<Step> {
    [Answer(r, answered), CloseClientScope(r), CloseRestScope(r)]
  }

  /** What one request, on thread `t` and at the server on `u`, has done to a state so far. */
  datatype Trail = Trail(
    spans: seq<Span>,
    onT: seq<SpanId>,
    onU: seq<SpanId>,
    request: Request,
    call: Option<Call>,
    running: map<ThreadId, Task>,
    newTraces: nat,
    counted: nat,
    served: nat)

  ghost predicate Did(s: State, s': State, r: RequestId, t: ThreadId, u: ThreadId, d: Trail) {
    && s'.spans == s.spans + d.spans
    && s'.nextTrace == s.nextTrace + d.newTraces
    && StackOf(s', t) == StackOf(s, t) + d.onT
    && StackOf(s', u) == StackOf(s, u) + d.onU
    && (forall x | x != t && x != u :: StackOf(s', x) == StackOf(s, x))
    && s'.running == d.running
    && s'.requests == s.requests[r := d.request]
    && s'.calls == (if d.call.Some? then s.calls[r := d.call.value] else s.calls)
    && s'.gatewayCounter == s.gatewayCounter + d.counted
    && s'.serverCounter == s.serverCounter + d.served
  }

  /** The REST, client and server span of a request that runs through, with the statuses given. */
  function RestSpan(s: State, t: ThreadId): Span {
    var current := Top(StackOf(s, t));
    Span(if current.Some? && current.value < |s.spans| then s.spans[current.value].traceId else s.nextTrace, current, Internal, Unset)
  }

  function ClientSpan(s: State, t: ThreadId, status: StatusCode): Span {
    Span(RestSpan(s, t).traceId, Some(|s.spans|), Client, status)
  }

  lemma EnterRestDid(s: State, r: RequestId, t: ThreadId, u: ThreadId, operation: Operation)
    requires TableOk(s) && r !in s.requests && r !in s.calls && t !in s.running && t != u
    ensures Enabled(s, EnterRest(r, t, operation))
    ensures Did(s, Apply(s, EnterRest(r, t, operation)), r, t, u,
      EnteredTrail(s, r, t, operation))
  {
  }

  lemma CountRestDid(s: State, s': State, r: RequestId, t: ThreadId, u: ThreadId, d: Trail)
    requires Did(s, s', r, t, u, d) && d.request.point == Entered
    ensures Enabled(s', CountRest(r))
    ensures Did(s, Apply(s', CountRest(r)), r, t, u, d.(request := d.request.(point := Counted), counted := d.counted + 1))
  {
  }

  /** Starting a current span changes that thread's contexts alone. */
  lemma StartedOn(s: State, t: ThreadId, explicit: Option<SpanContext>, kind: SpanKind)
    requires InTable(s, StackOf(s, t))
    ensures var s' := StartCurrent(s, t, explicit, kind);
      && s'.spans == s.spans + [NewSpan(s, explicit, Top(StackOf(s, t)), kind)]
      && s' == s.(spans := s'.spans, nextTrace := s'.nextTrace, stacks := s'.stacks)
      && s'.nextTrace == (if s'.spans[|s.spans|].parent.None? then s.nextTrace + 1 else s.nextTrace)
      && (forall x :: StackOf(s', x) == if x == t then StackOf(s, t) + [|s.spans|] else StackOf(s, x))
  {
  }

  lemma ClientSpanNew(s: State, s': State, r: RequestId, t: ThreadId, u: ThreadId, d: Trail)
    requires TableOk(s) && Did(s, s', r, t, u, d) && d.spans == [RestSpan(s, t)] && d.onT == [|s.spans|]
    ensures InTable(s', StackOf(s', t))
    ensures Top(StackOf(s', t)) == Some(|s.spans|) && |s'.spans| == |s.spans| + 1
    ensures NewSpan(s', None, Top(StackOf(s', t)), Client) == ClientSpan(s, t, Unset)
    ensures ClientSpan(s, t, Unset).parent.Some?
  {
    assert StackOf(s', t) == StackOf(s, t) + [|s.spans|];
    assert s'.spans[|s.spans|] == RestSpan(s, t);
    hide Did;
  }

  lemma StartClientSpanDid(s: State, s': State, r: RequestId, t: ThreadId, u: ThreadId, d: Trail)
    requires TableOk(s) && Did(s, s', r, t, u, d) && d.request.point == Counted && d.request.thread == t && t != u
    requires d.spans == [RestSpan(s, t)] && d.onT == [|s.spans|]
    ensures Enabled(s', StartClientSpan(r))
    ensures Did(s, Apply(s', StartClientSpan(r)), r, t, u,
      d.(spans := [RestSpan(s, t), ClientSpan(s, t, Unset)], onT := [|s.spans|, |s.spans| + 1],
         request := d.request.(point := Calling, clientSpan := |s.spans| + 1)))
  {
    hide StartCurrent, NewSpan, RestSpan, ClientSpan, TableOk;
    ClientSpanNew(s, s', r, t, u, d);
    StartedOn(s', t, None, Client);
    assert s'.spans + [ClientSpan(s, t, Unset)] == s.spans + [RestSpan(s, t), ClientSpan(s, t, Unset)];
    assert StackOf(s', t) + [|s.spans| + 1] == StackOf(s, t) + [|s.spans|, |s.spans| + 1];
  }

  lemma InjectDid(s: State, s': State, r: RequestId, t: ThreadId, u: ThreadId, d: Trail)
    requires TableOk(s) && Did(s, s', r, t, u, d) && d.request.point == Calling && d.request.thread == t
    requires d.spans == [RestSpan(s, t), ClientSpan(s, t, Unset)] && d.onT == [|s.spans|, |s.spans| + 1]
    ensures Enabled(s', Inject(r))
    ensures Did(s, Apply(s', Inject(r)), r, t, u,
      d.(request := d.request.(point := Injected, metadata := Some(SpanContext(RestSpan(s, t).traceId, |s.spans| + 1)))))
  {
  }

  lemma SendDid(s: State, s': State, r: RequestId, t: ThreadId, u: ThreadId, d: Trail)
    requires Did(s, s', r, t, u, d) && d.request.point == Injected
    ensures Enabled(s', Send(r))
    ensures Did(s, Apply(s', Send(r)), r, t, u,
      d.(request := d.request.(point := Waiting), call := Some(Call(d.request.metadata, InFlight, 0, [], None, 0, false))))
  {
  }

  /** With the header the server span is under the client span, without it under what was
      current on its own thread. */
  function ServerSpan(s: State, t: ThreadId, u: ThreadId, header: bool, status: StatusCode): Span {
    var current := Top(StackOf(s, u));
    if header then Span(RestSpan(s, t).traceId, Some(|s.spans| + 1), Server, status)
    else if current.Some? && current.value < |s.spans| then Span(s.spans[current.value].traceId, current, Server, status)
    else Span(s.nextTrace + if StackOf(s, t) == [] then 1 else 0, None, Server, status)
  }

  lemma ExtractDid(s: State, s': State, r: RequestId, t: ThreadId, u: ThreadId, d: Trail, header: bool)
    requires Did(s, s', r, t, u, d) && d.call.Some? && d.call.value.point == InFlight && t != u && d.onU == []
    requires u !in d.running
    ensures Enabled(s', Extract(r, u, header))
    ensures Did(s, Apply(s', Extract(r, u, header)), r, t, u,
      d.(running := d.running[u := RpcTask(r)],
         call := Some(d.call.value.(point := Extracted, thread := u, entry := StackOf(s, u),
                                    parent := if header then d.call.value.metadata else None))))
  {
    assert StackOf(s', u) == StackOf(s, u);
  }

  lemma ServerSpanNew(s: State, s': State, r: RequestId, t: ThreadId, u: ThreadId, d: Trail, header: bool)
    requires TableOk(s) && Did(s, s', r, t, u, d) && t != u && d.onU == [] && |d.spans| == 2
    requires d.newTraces == if StackOf(s, t) == [] then 1 else 0
    ensures StackOf(s', u) == StackOf(s, u) && InTable(s', StackOf(s', u)) && |s'.spans| == |s.spans| + 2
    ensures var parent := if header then Some(SpanContext(RestSpan(s, t).traceId, |s.spans| + 1)) else None;
      NewSpan(s', parent, Top(StackOf(s', u)), Server) == ServerSpan(s, t, u, header, Unset)
  {
    hide Detach, StartCurrent;
    assert StackOf(s', u) == StackOf(s, u);
    assert InTable(s, StackOf(s, u));
  }

  lemma StartServerSpanDid(s: State, s': State, r: RequestId, t: ThreadId, u: ThreadId, d: Trail, header: bool)
    requires TableOk(s) && Did(s, s', r, t, u, d) && t != u && d.call.Some? && d.call.value.point == Extracted
    requires d.call.value.thread == u && d.onU == [] && |d.spans| == 2
    requires d.newTraces == if StackOf(s, t) == [] then 1 else 0
    requires d.call.value.parent == if header then Some(SpanContext(RestSpan(s, t).traceId, |s.spans| + 1)) else None
    ensures Enabled(s', StartServerSpan(r))
    ensures Did(s, Apply(s', StartServerSpan(r)), r, t, u,
      d.(spans := d.spans + [ServerSpan(s, t, u, header, Unset)], onU := [|s.spans| + 2],
         newTraces := d.newTraces + if ServerSpan(s, t, u, header, Unset).parent.None? then 1 else 0,
         call := Some(d.call.value.(point := Serving, serverSpan := |s.spans| + 2))))
  {
    hide Detach, StartCurrent, NewSpan, RestSpan, ServerSpan, TableOk;
    ServerSpanNew(s, s', r, t, u, d, header);
    StartedOn(s', u, d.call.value.parent, Server);
    assert s'.spans + [ServerSpan(s, t, u, header, Unset)] == s.spans + (d.spans + [ServerSpan(s, t, u, header, Unset)]);
  }

  lemma CountRpcDid(s: State, s': State, r: RequestId, t: ThreadId, u: ThreadId, d: Trail)
    requires Did(s, s', r, t, u, d) && d.call.Some? && d.call.value.point == Serving
    ensures Enabled(s', CountRpc(r))
    ensures Did(s, Apply(s', CountRpc(r)), r, t, u,
      d.(served := d.served + 1, call := Some(d.call.value.(point := ServerCounted))))
  {
  }

  lemma ServeDid(s: State, s': State, r: RequestId, t: ThreadId, u: ThreadId, d: Trail, server: Span, ok: bool)
    requires Did(s, s', r, t, u, d) && d.call.Some? && d.call.value.point == ServerCounted
    requires d.call.value.serverSpan == |s.spans| + 2 && |d.spans| == 3 && d.spans[2] == server && server.status == Unset
    ensures Enabled(s', Serve(r, ok))
    ensures Did(s, Apply(s', Serve(r, ok)), r, t, u,
      d.(spans := d.spans[..2] + [server.(status := if ok then StatusOk else Unset)],
         call := Some(d.call.value.(point := Served, statusOk := ok))))
  {
  }

  /** Closing the scope of the current context changes that thread's contexts alone. */
  lemma ClosedOnTop(s: State, t: ThreadId, below: seq<SpanId>, token: SpanId)
    requires StackOf(s, t) == below + [token]
    ensures forall x :: StackOf(CloseScope(s, t, token), x) == if x == t then below else StackOf(s, x)
    ensures below + [] == below
  {
    DetachTop(below, token);
  }

  lemma CloseServerScopeDid(s: State, s': State, r: RequestId, t: ThreadId, u: ThreadId, d: Trail)
    requires Did(s, s', r, t, u, d) && d.call.Some? && d.call.value.point == Served && d.call.value.thread == u && t != u
    requires d.onU == [d.call.value.serverSpan]
    ensures Enabled(s', CloseServerScope(r))
    ensures Did(s, Apply(s', CloseServerScope(r)), r, t, u,
      d.(onU := [], running := d.running - {u}, call := Some(d.call.value.(point := Replied))))
  {
    hide Detach, NewSpan, StartCurrent, InjectedContext, InTable;
    ClosedOnTop(s', u, StackOf(s, u), d.call.value.serverSpan);
  }

  lemma AnswerDid(s: State, s': State, r: RequestId, t: ThreadId, u: ThreadId, d: Trail, client: Span, ok: bool)
    requires Did(s, s', r, t, u, d) && d.request.point == Waiting && d.call.Some? && d.call.value.point == Replied
    requires ok ==> d.call.value.statusOk
    requires d.request.clientSpan == |s.spans| + 1 && |d.spans| == 3 && d.spans[1] == client
    ensures Enabled(s', Answer(r, ok))
    ensures Did(s, Apply(s', Answer(r, ok)), r, t, u,
      d.(spans := [d.spans[0], client.(status := if ok then StatusOk else StatusError), d.spans[2]],
         request := d.request.(point := Answered, statusOk := ok)))
  {
  }

  lemma CloseClientScopeDid(s: State, s': State, r: RequestId, t: ThreadId, u: ThreadId, d: Trail)
    requires Did(s, s', r, t, u, d) && d.request.point == Answered && d.request.thread == t && t != u
    requires d.onT == [|s.spans|, |s.spans| + 1] && d.request.clientSpan == |s.spans| + 1
    ensures Enabled(s', CloseClientScope(r))
    ensures Did(s, Apply(s', CloseClientScope(r)), r, t, u, d.(onT := [|s.spans|], request := d.request.(point := Unwound)))
  {
    hide Detach, NewSpan, StartCurrent, InjectedContext, InTable;
    var below := StackOf(s, t) + [|s.spans|];
    assert StackOf(s', t) == below + [|s.spans| + 1];
    ClosedOnTop(s', t, below, |s.spans| + 1);
  }

  lemma CloseRestScopeDid(s: State, s': State, r: RequestId, t: ThreadId, u: ThreadId, d: Trail)
    requires Did(s, s', r, t, u, d) && d.request.point == Unwound && d.request.thread == t && t != u
    requires d.onT == [|s.spans|] && d.request.restSpan == |s.spans|
    ensures Enabled(s', CloseRestScope(r))
    ensures Did(s, Apply(s', CloseRestScope(r)), r, t, u,
      d.(onT := [], running := d.running - {t}, request := d.request.(point := Finished)))
  {
    hide Detach, NewSpan, StartCurrent, InjectedContext, InTable;
    ClosedOnTop(s', t, StackOf(s, t), |s.spans|);
  }

  /** A run is its first step and a run from there. */
  lemma RunFrom(s: State, step: Step, steps: seq<Step>)
    requires Enabled(s, step) && ValidRun(Apply(s, step), steps)
    ensures ValidRun(s, [step] + steps) && Final(s, [step] + steps) == Final(Apply(s, step), steps)
  {
    assert ([step] + steps)[1..] == steps;
  }

  lemma RunThree(s: State, a: Step, b: Step, c: Step)
    requires Enabled(s, a)
    requires Enabled(Apply(s, a), b)
    requires Enabled(Apply(Apply(s, a), b), c)
    ensures ValidRun(s, [a, b, c]) && Final(s, [a, b, c]) == Apply(Apply(Apply(s, a), b), c)
  {
    hide Apply, Enabled;
    RunFrom(Apply(Apply(s, a), b), c, []);
    RunFrom(Apply(s, a), b, [c]);
    RunFrom(s, a, [b, c]);
    assert [c] + [] == [c] && [b] + [c] == [b, c] && [a] + [b, c] == [a, b, c];
  }

  lemma RunFive(s: State, a: Step, b: Step, c: Step, d: Step, e: Step)
    requires Enabled(s, a)
    requires Enabled(Apply(s, a), b)
    requires Enabled(Apply(Apply(s, a), b), c)
    requires Enabled(Apply(Apply(Apply(s, a), b), c), d)
    requires Enabled(Apply(Apply(Apply(Apply(s, a), b), c), d), e)
    ensures ValidRun(s, [a, b, c, d, e])
    ensures Final(s, [a, b, c, d, e]) == Apply(Apply(Apply(Apply(Apply(s, a), b), c), d), e)
  {
    hide Apply, Enabled;
    RunThree(Apply(Apply(s, a), b), c, d, e);
    RunFrom(Apply(s, a), b, [c, d, e]);
    RunFrom(s, a, [b, c, d, e]);
    assert [b] + [c, d, e] == [b, c, d, e] && [a] + [b, c, d, e] == [a, b, c, d, e];
  }

  function EnteredTrail(s: State, r: RequestId, t: ThreadId, operation: Operation): Trail {
    Trail([RestSpan(s, t)], [|s.spans|], [], Request(operation, t, StackOf(s, t), Entered, |s.spans|, 0, None, false), None,
          s.running[t := RestTask(r)], if StackOf(s, t) == [] then 1 else 0, 0, 0)
  }

  function SentTrail(s: State, r: RequestId, t: ThreadId, operation: Operation): Trail {
    var metadata := Some(SpanContext(RestSpan(s, t).traceId, |s.spans| + 1));
    Trail([RestSpan(s, t), ClientSpan(s, t, Unset)], [|s.spans|, |s.spans| + 1], [],
          Request(operation, t, StackOf(s, t), Waiting, |s.spans|, |s.spans| + 1, metadata, false),
          Some(Call(metadata, InFlight, 0, [], None, 0, false)),
          s.running[t := RestTask(r)], if StackOf(s, t) == [] then 1 else 0, 1, 0)
  }

  lemma GatewayStartDid(s: State, r: RequestId, t: ThreadId, u: ThreadId, operation: Operation)
    requires TableOk(s) && r !in s.requests && r !in s.calls && t !in s.running && t != u
    ensures ValidRun(s, GatewayStart(r, t, operation))
    ensures Did(s, Final(s, GatewayStart(r, t, operation)), r, t, u, SentTrail(s, r, t, operation))
  {
    hide Apply, Enabled, Did, TableOk, RestSpan, ClientSpan;
    var d := EnteredTrail(s, r, t, operation);
    EnterRestDid(s, r, t, u, operation);
    var s1 := Apply(s, EnterRest(r, t, operation));
    CountRestDid(s, s1, r, t, u, d);
    var s2 := Apply(s1, CountRest(r));
    d := d.(request := d.request.(point := Counted), counted := 1);
    StartClientSpanDid(s, s2, r, t, u, d);
    var s3 := Apply(s2, StartClientSpan(r));
    d := d.(spans := [RestSpan(s, t), ClientSpan(s, t, Unset)], onT := [|s.spans|, |s.spans| + 1],
            request := d.request.(point := Calling, clientSpan := |s.spans| + 1));
    InjectDid(s, s3, r, t, u, d);
    var s4 := Apply(s3, Inject(r));
    d := d.(request := d.request.(point := Injected, metadata := Some(SpanContext(RestSpan(s, t).traceId, |s.spans| + 1))));
    SendDid(s, s4, r, t, u, d);
    RunFive(s, EnterRest(r, t, operation), CountRest(r), StartClientSpan(r), Inject(r), Send(r));
  }

  function ServingTrail(s: State, r: RequestId, t: ThreadId, u: ThreadId, operation: Operation, header: bool): Trail {
    var d := SentTrail(s, r, t, operation);
    var server := ServerSpan(s, t, u, header, Unset);
    d.(spans := [RestSpan(s, t), ClientSpan(s, t, Unset), server],
       onU := [|s.spans| + 2],
       running := s.running[t := RestTask(r)][u := RpcTask(r)],
       newTraces := d.newTraces + if server.parent.None? then 1 else 0,
       served := 1,
       call := Some(Call(d.request.metadata, ServerCounted, u, StackOf(s, u), if header then d.request.metadata else None, |s.spans| + 2, false)))
  }

  lemma ServerStartDid(s: State, s': State, r: RequestId, t: ThreadId, u: ThreadId, operation: Operation, header: bool)
    requires TableOk(s) && Did(s, s', r, t, u, SentTrail(s, r, t, operation)) && t != u && u !in s.running
    ensures ValidRun(s', ServerStart(r, u, header))
    ensures Did(s, Final(s', ServerStart(r, u, header)), r, t, u, ServingTrail(s, r, t, u, operation, header))
  {
    hide Apply, Enabled, Did, TableOk, RestSpan, ClientSpan;
    var d := SentTrail(s, r, t, operation);
    ExtractDid(s, s', r, t, u, d, header);
    var s1 := Apply(s', Extract(r, u, header));
    d := d.(running := d.running[u := RpcTask(r)],
            call := Some(d.call.value.(point := Extracted, thread := u, entry := StackOf(s, u),
                                       parent := if header then d.call.value.metadata else None)));
    StartServerSpanDid(s, s1, r, t, u, d, header);
    var s2 := Apply(s1, StartServerSpan(r));
    var server := ServerSpan(s, t, u, header, Unset);
    assert d.spans + [server] == [RestSpan(s, t), ClientSpan(s, t, Unset), server];
    d := d.(spans := d.spans + [server], onU := [|s.spans| + 2],
            newTraces := d.newTraces + if server.parent.None? then 1 else 0,
            call := Some(d.call.value.(point := Serving, serverSpan := |s.spans| + 2)));
    CountRpcDid(s, s2, r, t, u, d);
    RunThree(s', Extract(r, u, header), StartServerSpan(r), CountRpc(r));
  }

  function ServedTrail(s: State, r: RequestId, t: ThreadId, u: ThreadId, operation: Operation, header: bool, ok: bool): Trail {
    var d := ServingTrail(s, r, t, u, operation, header);
    d.(spans := d.spans[..2] + [ServerSpan(s, t, u, header, if ok then StatusOk else Unset)],
       onU := [], running := d.running - {u}, call := Some(d.call.value.(point := Replied, statusOk := ok)))
  }

  lemma ServerSpanStatus(s: State, t: ThreadId, u: ThreadId, header: bool, status: StatusCode)
    ensures var server := ServerSpan(s, t, u, header, Unset);
      server.status == Unset && ServerSpan(s, t, u, header, status) == server.(status := status)
  {
  }

  lemma ServerEndDid(s: State, s': State, r: RequestId, t: ThreadId, u: ThreadId, operation: Operation, header: bool, ok: bool)
    requires Did(s, s', r, t, u, ServingTrail(s, r, t, u, operation, header)) && t != u
    ensures ValidRun(s', ServerEnd(r, ok))
    ensures Did(s, Final(s', ServerEnd(r, ok)), r, t, u, ServedTrail(s, r, t, u, operation, header, ok))
  {
    hide Apply, Enabled, Did, RestSpan, ClientSpan, ServerSpan;
    var d := ServingTrail(s, r, t, u, operation, header);
    var status := if ok then StatusOk else Unset;
    ServerSpanStatus(s, t, u, header, status);
    ServeDid(s, s', r, t, u, d, ServerSpan(s, t, u, header, Unset), ok);
    var s1 := Apply(s', Serve(r, ok));
    d := d.(spans := d.spans[..2] + [ServerSpan(s, t, u, header, status)],
            call := Some(d.call.value.(point := Served, statusOk := ok)));
    CloseServerScopeDid(s, s1, r, t, u, d);
    RunFrom(s1, CloseServerScope(r), []);
    RunFrom(s', Serve(r, ok), [CloseServerScope(r)]);
    assert [CloseServerScope(r)] + [] == [CloseServerScope(r)];
    assert [Serve(r, ok)] + [CloseServerScope(r)] == ServerEnd(r, ok);
  }

  function EndedTrail(s: State, r: RequestId, t: ThreadId, u: ThreadId, operation: Operation, header: bool, ok: bool, answered: bool): Trail {
    var d := ServedTrail(s, r, t, u, operation, header, ok);
    d.(spans := [RestSpan(s, t), ClientSpan(s, t, if answered then StatusOk else StatusError), d.spans[2]],
       onT := [], running := d.running - {t}, request := d.request.(point := Finished, statusOk := answered))
  }

  lemma GatewayEndDid(s: State, s': State, r: RequestId, t: ThreadId, u: ThreadId, operation: Operation, header: bool, ok: bool, answered: bool)
    requires Did(s, s', r, t, u, ServedTrail(s, r, t, u, operation, header, ok)) && t != u && (answered ==> ok)
    ensures ValidRun(s', GatewayEnd(r, answered))
    ensures Did(s, Final(s', GatewayEnd(r, answered)), r, t, u, EndedTrail(s, r, t, u, operation, header, ok, answered))
  {
    hide Apply, Enabled, Did, RestSpan, ServerSpan;
    var d := ServedTrail(s, r, t, u, operation, header, ok);
    var client := ClientSpan(s, t, Unset);
    AnswerDid(s, s', r, t, u, d, client, answered);
    var s1 := Apply(s', Answer(r, answered));
    d := d.(spans := [d.spans[0], client.(status := if answered then StatusOk else StatusError), d.spans[2]],
            request := d.request.(point := Answered, statusOk := answered));
    CloseClientScopeDid(s, s1, r, t, u, d);
    var s2 := Apply(s1, CloseClientScope(r));
    d := d.(onT := [|s.spans|], request := d.request.(point := Unwound));
    CloseRestScopeDid(s, s2, r, t, u, d);
    RunThree(s', Answer(r, answered), CloseClientScope(r), CloseRestScope(r));
  }

  function WholeRun(r: RequestId, t: ThreadId, u: ThreadId, operation: Operation, header: bool, ok: bool, answered: bool): seq<Step> {
    GatewayStart(r, t, operation) + ServerStart(r, u, header) + ServerEnd(r, ok) + GatewayEnd(r, answered)
  }

  /** A request has run through from `s` to `s'`: it leaves three spans with these parents, traces
      and statuses, both counters one higher, every thread's contexts, the thread table and the
      other requests as they were, and an outcome that the answer and the operation decide. */
  ghost predicate RanThrough(s: State, s': State, r: RequestId, t: ThreadId, u: ThreadId, operation: Operation, header: bool, ok: bool, answered: bool) {
    var n := |s.spans|;
    && |s'.spans| == n + 3 && s'.spans[..n] == s.spans
    && s'.spans[n].kind == Internal && s'.spans[n].parent == Top(StackOf(s, t))
    && s'.spans[n + 1] == Span(s'.spans[n].traceId, Some(n), Client, if answered then StatusOk else StatusError)
    && s'.spans[n + 2].kind == Server && s'.spans[n + 2].status == (if ok then StatusOk else Unset)
    && s'.spans[n + 2].parent == (if header then Some(n + 1) else Top(StackOf(s, u)))
    && (header ==> s'.spans[n + 2].traceId == s'.spans[n].traceId)
    && s'.gatewayCounter == s.gatewayCounter + 1 && s'.serverCounter == s.serverCounter + 1
    && (forall x :: StackOf(s', x) == StackOf(s, x)) && s'.running == s.running
    && s'.requests.Keys == s.requests.Keys + {r} && (forall q :: q in s.requests ==> s'.requests[q] == s.requests[q])
    && s'.requests[r].operation == operation && s'.requests[r].point.Finished?
    && OutcomeOf(s'.requests[r]) == (if answered || operation.ReadUsers? then Returned else Thrown)
  }

  /** In every reachable state with two free threads a new request can run through, served well or
      not, and answered with a success if it was. */
  lemma RequestRunsThrough(s: State, r: RequestId, t: ThreadId, u: ThreadId, operation: Operation, header: bool, ok: bool, answered: bool)
    requires Reachable(s) && r !in s.requests && t !in s.running && u !in s.running && t != u && (answered ==> ok)
    ensures ValidRun(s, WholeRun(r, t, u, operation, header, ok, answered))
    ensures RanThrough(s, Final(s, WholeRun(r, t, u, operation, header, ok, answered)), r, t, u, operation, header, ok, answered)
  {
    hide Apply, Enabled, Reachable, ValidRun, Did, RanThrough;
    ReachableParts(s, r);
    GatewayStartDid(s, r, t, u, operation);
    var s1 := Final(s, GatewayStart(r, t, operation));
    ServerStartDid(s, s1, r, t, u, operation, header);
    var s2 := Final(s1, ServerStart(r, u, header));
    ServerEndDid(s, s2, r, t, u, operation, header, ok);
    var s3 := Final(s2, ServerEnd(r, ok));
    GatewayEndDid(s, s3, r, t, u, operation, header, ok, answered);
    var steps := GatewayStart(r, t, operation);
    RunAppend(s, steps, ServerStart(r, u, header));
    steps := steps + ServerStart(r, u, header);
    RunAppend(s, steps, ServerEnd(r, ok));
    steps := steps + ServerEnd(r, ok);
    RunAppend(s, steps, GatewayEnd(r, answered));
    WhatIsLeft(s, Final(s, WholeRun(r, t, u, operation, header, ok, answered)), r, t, u, operation, header, ok, answered);
  }

  lemma WhatIsLeft(s: State, s': State, r: RequestId, t: ThreadId, u: ThreadId, operation: Operation, header: bool, ok: bool, answered: bool)
    requires TableOk(s) && r !in s.requests && t !in s.running && u !in s.running && t != u
    requires Did(s, s', r, t, u, EndedTrail(s, r, t, u, operation, header, ok, answered))
    ensures RanThrough(s, s', r, t, u, operation, header, ok, answered)
  {
    assert InTable(s, StackOf(s, u));
    assert s'.running == s.running;
  }
}
