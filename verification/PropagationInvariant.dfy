/** What every step of the propagation protocol keeps. */
module PropagationInvariant {
  import opened Propagation
  import opened Wrappers

  /** Parents precede their children and share their trace; roots have traces of their own. */
  predicate SpansOk(s: State) {
    && (forall i | 0 <= i < |s.spans| :: s.spans[i].traceId < s.nextTrace)
    && (forall i | 0 <= i < |s.spans| && s.spans[i].parent.Some? ::
          s.spans[i].parent.value < i && s.spans[s.spans[i].parent.value].traceId == s.spans[i].traceId)
    && (forall i, j | 0 <= i < j < |s.spans| && s.spans[i].parent.None? && s.spans[j].parent.None? ::
          s.spans[i].traceId != s.spans[j].traceId)
  }

  /** The scopes a REST handler has open, innermost last. */
  function RestScopes(q: Request): seq<SpanId> {
    match q.point
    case Entered | Counted | Unwound => [q.restSpan]
    case Calling | Injected | Waiting | Answered => [q.restSpan, q.clientSpan]
    case Finished => []
  }

  function RpcScopes(c: Call): seq<SpanId> {
    match c.point
    case Serving | ServerCounted | Served => [c.serverSpan]
    case InFlight | Extracted | Replied => []
  }

  predicate RequestOk(s: State, r: RequestId)
    requires r in s.requests
  {
    var q := s.requests[r];
    && InTable(s, q.entry)
    && q.restSpan < |s.spans|
    && s.spans[q.restSpan].kind == Internal
    && s.spans[q.restSpan].parent == Top(q.entry)
    && (q.point.Rank() >= Calling.Rank() ==>
          q.clientSpan < |s.spans|
          && s.spans[q.clientSpan].kind == Client
          && s.spans[q.clientSpan].parent == Some(q.restSpan))
    && (q.point.Rank() >= Injected.Rank() ==>
          q.metadata == Some(SpanContext(s.spans[q.clientSpan].traceId, q.clientSpan)))
    && (q.point.Rank() >= Waiting.Rank() <==> r in s.calls)
    && (!q.point.Finished? ==>
          q.thread in s.running && s.running[q.thread] == RestTask(r)
          && StackOf(s, q.thread) == q.entry + RestScopes(q))
    && (q.statusOk ==> AtServer(s, r, Replied) && s.calls[r].statusOk)
  }

  predicate CallOk(s: State, r: RequestId)
    requires r in s.calls
  {
    var c := s.calls[r];
    && r in s.requests
    && c.metadata == s.requests[r].metadata
    && c.metadata.Some?
    && (c.parent.None? || c.parent == c.metadata)
    && (c.statusOk ==> c.point.Rank() >= Served.Rank())
    && (c.point.Rank() >= Extracted.Rank() ==> InTable(s, c.entry))
    && (c.point.Rank() >= Serving.Rank() ==>
          c.serverSpan < |s.spans|
          && s.spans[c.serverSpan].kind == Server
          && s.spans[c.serverSpan].parent == if c.parent.Some? then Some(c.parent.value.spanId) else Top(c.entry))
    && (Extracted.Rank() <= c.point.Rank() < Replied.Rank() ==>
          c.thread in s.running && s.running[c.thread] == RpcTask(r)
          && StackOf(s, c.thread) == c.entry + RpcScopes(c))
  }

  predicate Inv(s: State) {
    && SpansOk(s)
    && (forall t :: t in s.stacks ==> InTable(s, s.stacks[t]))
    && (forall r :: r in s.requests ==> RequestOk(s, r))
    && (forall r :: r in s.calls ==> CallOk(s, r))
    && s.gatewayCounter == |CountedRequests(s)|
    && s.serverCounter == |CountedCalls(s)|
  }

  function CountedRequests(s: State): set<RequestId> {
    set r | r in s.requests && PastRestCount(s, r)
  }

  function CountedCalls(s: State): set<RequestId> {
    set r | r in s.calls && PastRpcCount(s, r)
  }

  /** No requests yet; the threads may have any contexts current already. */
  predicate Init(s: State) {
    && SpansOk(s)
    && (forall t :: t in s.stacks ==> InTable(s, s.stacks[t]))
    && s.requests == map[] && s.calls == map[] && s.running == map[]
    && s.gatewayCounter == 0 && s.serverCounter == 0
  }

  // ---------- frames ----------

  /** The table only grows, and a started span keeps everything but its status. */
  predicate Grows(s: State, s': State) {
    && |s.spans| <= |s'.spans|
    && (forall i | 0 <= i < |s.spans| :: SameSpan(s.spans[i], s'.spans[i]))
  }

  predicate SameSpan(a: Span, b: Span) {
    a.traceId == b.traceId && a.parent == b.parent && a.kind == b.kind
  }

  lemma RequestFrame(s: State, s': State, r: RequestId)
    requires r in s.requests && RequestOk(s, r) && Grows(s, s')
    requires r in s'.requests && s'.requests[r] == s.requests[r]
    requires !s.requests[r].point.Finished? ==>
      var t := s.requests[r].thread; t in s'.running && s'.running[t] == s.running[t] && StackOf(s', t) == StackOf(s, t)
    requires r in s'.calls <==> r in s.calls
    requires AtServer(s, r, Replied) ==> AtServer(s', r, Replied) && s'.calls[r].statusOk == s.calls[r].statusOk
    ensures RequestOk(s', r)
  {
    assert SameSpan(s.spans[s.requests[r].restSpan], s'.spans[s.requests[r].restSpan]);
  }

  lemma CallFrame(s: State, s': State, r: RequestId)
    requires r in s.calls && CallOk(s, r) && Grows(s, s')
    requires r in s'.calls && s'.calls[r] == s.calls[r]
    requires r in s'.requests && s'.requests[r].metadata == s.requests[r].metadata
    requires Extracted.Rank() <= s.calls[r].point.Rank() < Replied.Rank() ==>
      var t := s.calls[r].thread; t in s'.running && s'.running[t] == s.running[t] && StackOf(s', t) == StackOf(s, t)
    ensures CallOk(s', r)
  {
  }

  lemma DetachSecond(entry: seq<SpanId>, first: SpanId, second: SpanId)
    ensures Detach(entry + [first, second], second) == entry + [first]
  {
    assert entry + [first, second] == entry + [first] + [second];
    DetachTop(entry + [first], second);
  }

  /** A step of request `r` on thread `t` leaves every other request and call in order. */
  lemma OthersKept(s: State, s': State, r: RequestId, t: ThreadId)
    requires Inv(s) && Grows(s, s')
    requires t in s.running ==> s.running[t].request == r
    requires forall q | q != r :: q in s'.requests <==> q in s.requests
    requires forall q | q != r && q in s.requests :: s'.requests[q] == s.requests[q]
    requires forall q | q != r :: q in s'.calls <==> q in s.calls
    requires forall q | q != r && q in s.calls :: s'.calls[q] == s.calls[q]
    requires forall u | u != t && u in s.running :: u in s'.running && s'.running[u] == s.running[u]
    requires forall u | u != t :: StackOf(s', u) == StackOf(s, u)
    ensures forall q | q != r && q in s'.requests :: RequestOk(s', q)
    ensures forall q | q != r && q in s'.calls :: CallOk(s', q)
  {
    forall q | q != r && q in s'.requests
      ensures RequestOk(s', q)
    {
      assert RequestOk(s, q);
      RequestFrame(s, s', q);
    }
    forall q | q != r && q in s'.calls
      ensures CallOk(s', q)
    {
      assert CallOk(s, q);
      CallFrame(s, s', q);
    }
  }

  /** Starting a span keeps the table well-formed. */
  lemma StartKeepsSpans(s: State, t: ThreadId, explicit: Option<SpanContext>, kind: SpanKind)
    requires SpansOk(s) && (forall u :: u in s.stacks ==> InTable(s, s.stacks[u]))
    requires explicit.Some? ==> explicit.value.spanId < |s.spans| && s.spans[explicit.value.spanId].traceId == explicit.value.traceId
    requires InTable(s, StackOf(s, t))
    ensures var s' := StartCurrent(s, t, explicit, kind);
      SpansOk(s') && Grows(s, s') && forall u :: u in s'.stacks ==> InTable(s', s'.stacks[u])
  {
  }

  lemma DetachTop(stack: seq<SpanId>, token: SpanId)
    ensures Detach(stack + [token], token) == stack
  {
  }

  // ---------- one step ----------

  /** Step of request `r` on thread `t`: nothing else moves. */
  ghost predicate OnlyTouches(s: State, s': State, r: RequestId, t: ThreadId) {
    && (t in s.running ==> s.running[t].request == r)
    && s'.requests.Keys == s.requests.Keys + {r}
    && (s'.calls.Keys == s.calls.Keys || s'.calls.Keys == s.calls.Keys + {r})
    && (forall q | q in s.requests && q != r :: s'.requests[q] == s.requests[q])
    && (forall q | q in s.calls && q != r :: s'.calls[q] == s.calls[q])
    && (forall u | u in s.running && u != t :: u in s'.running && s'.running[u] == s.running[u])
    && (forall u | u != t :: StackOf(s', u) == StackOf(s, u))
  }

  predicate TableOk(s: State) {
    && SpansOk(s)
    && (forall t :: t in s.stacks ==> InTable(s, s.stacks[t]))
  }

  predicate PastRestCount(s: State, r: RequestId) {
    r in s.requests && s.requests[r].point.Rank() >= Counted.Rank()
  }

  predicate PastRpcCount(s: State, r: RequestId) {
    r in s.calls && s.calls[r].point.Rank() >= ServerCounted.Rank()
  }

  /** Each counter goes up by one exactly when `r` passes its line. */
  predicate CountsStep(s: State, s': State, r: RequestId) {
    && (PastRestCount(s, r) ==> PastRestCount(s', r))
    && (PastRpcCount(s, r) ==> PastRpcCount(s', r))
    && s'.gatewayCounter == s.gatewayCounter + (if PastRestCount(s', r) && !PastRestCount(s, r) then 1 else 0)
    && s'.serverCounter == s.serverCounter + (if PastRpcCount(s', r) && !PastRpcCount(s, r) then 1 else 0)
  }

  lemma RestCountKept(s: State, s': State, r: RequestId, t: ThreadId)
    requires OnlyTouches(s, s', r, t) && CountsStep(s, s', r)
    requires s.gatewayCounter == |CountedRequests(s)|
    ensures s'.gatewayCounter == |CountedRequests(s')|
  {
    forall q | q != r
      ensures PastRestCount(s', q) <==> PastRestCount(s, q)
    {
      assert q in s'.requests.Keys <==> q in s.requests.Keys;
    }
    OneMore(CountedRequests(s), CountedRequests(s'), r);
  }

  lemma RpcCountKept(s: State, s': State, r: RequestId, t: ThreadId)
    requires OnlyTouches(s, s', r, t) && CountsStep(s, s', r)
    requires s.serverCounter == |CountedCalls(s)|
    ensures s'.serverCounter == |CountedCalls(s')|
  {
    forall q | q != r
      ensures PastRpcCount(s', q) <==> PastRpcCount(s, q)
    {
      assert q in s'.calls.Keys <==> q in s.calls.Keys;
    }
    OneMore(CountedCalls(s), CountedCalls(s'), r);
  }

  lemma OneMore(before: set<RequestId>, after: set<RequestId>, r: RequestId)
    requires forall q | q != r :: q in after <==> q in before
    requires r in before ==> r in after
    ensures |after| == |before| + if r in after && r !in before then 1 else 0
  {
    if r in after && r !in before {
      assert after == before + {r};
    } else {
      assert after == before;
    }
  }

  lemma KeepStep(s: State, s': State, r: RequestId, t: ThreadId)
    requires Inv(s) && OnlyTouches(s, s', r, t) && Grows(s, s') && TableOk(s') && CountsStep(s, s', r)
    requires r in s'.requests && RequestOk(s', r) && (r in s'.calls ==> CallOk(s', r))
    ensures Inv(s')
  {
    hide RequestOk, CallOk, PastRestCount, PastRpcCount, SpansOk, InTable;
    OthersKept(s, s', r, t);
    RestCountKept(s, s', r, t);
    RpcCountKept(s, s', r, t);
  }

  /** The thread a step runs on. */
  function ThreadOf(s: State, step: Step): ThreadId
    requires Enabled(s, step)
  {
    match step
    case EnterRest(_, t, _) => t
    case Extract(_, t, _) => t
    case StartServerSpan(r) => s.calls[r].thread
    case CountRpc(r) => s.calls[r].thread
    case Serve(r, _) => s.calls[r].thread
    case CloseServerScope(r) => s.calls[r].thread
    case _ => s.requests[step.request].thread
  }

  predicate SpanStep(step: Step) {
    step.EnterRest? || step.StartClientSpan? || step.StartServerSpan?
  }

  predicate ServerStep(step: Step) {
    step.Extract? || step.CountRpc? || step.Serve? || step.CloseServerScope?
  }

  lemma SpanStepTouches(s: State, step: Step)
    requires Enabled(s, step) && SpanStep(step)
    requires step.request in s.calls ==> step.request in s.requests
    requires var t := ThreadOf(s, step); t in s.running ==> s.running[t].request == step.request
    ensures OnlyTouches(s, Apply(s, step), step.request, ThreadOf(s, step))
  {
  }

  lemma ServerStepTouches(s: State, step: Step)
    requires Enabled(s, step) && ServerStep(step)
    requires step.request in s.calls ==> step.request in s.requests
    requires var t := ThreadOf(s, step); t in s.running ==> s.running[t].request == step.request
    ensures OnlyTouches(s, Apply(s, step), step.request, ThreadOf(s, step))
  {
  }

  lemma GatewayStepTouches(s: State, step: Step)
    requires Enabled(s, step) && !SpanStep(step) && !ServerStep(step)
    requires step.request in s.calls ==> step.request in s.requests
    requires var t := ThreadOf(s, step); t in s.running ==> s.running[t].request == step.request
    ensures OnlyTouches(s, Apply(s, step), step.request, ThreadOf(s, step))
  {
  }

  lemma StepCounts(s: State, step: Step)
    requires Enabled(s, step)
    requires step.request in s.calls ==> step.request in s.requests && s.requests[step.request].point.Rank() >= Waiting.Rank()
    ensures CountsStep(s, Apply(s, step), step.request)
  {
    hide CountsStep;
    if ServerStep(step) || step.StartServerSpan? {
      ServerStepCounts(s, step);
    } else {
      GatewayStepCounts(s, step);
    }
  }

  lemma ServerStepCounts(s: State, step: Step)
    requires Enabled(s, step) && (ServerStep(step) || step.StartServerSpan?)
    ensures CountsStep(s, Apply(s, step), step.request)
  {
  }

  lemma GatewayStepCounts(s: State, step: Step)
    requires Enabled(s, step) && !ServerStep(step) && !step.StartServerSpan?
    requires step.request in s.calls ==> step.request in s.requests && s.requests[step.request].point.Rank() >= Waiting.Rank()
    ensures CountsStep(s, Apply(s, step), step.request)
  {
  }

  lemma DetachInTable(s: State, stack: seq<SpanId>, token: SpanId)
    requires InTable(s, stack)
    ensures InTable(s, Detach(stack, token))
  {
  }

  lemma CloseKeepsTable(s: State, t: ThreadId, token: SpanId)
    requires TableOk(s)
    ensures TableOk(CloseScope(s, t, token)) && Grows(s, CloseScope(s, t, token))
  {
    DetachInTable(s, StackOf(s, t), token);
  }

  lemma StatusKeepsTable(s: State, id: SpanId, status: StatusCode)
    requires TableOk(s) && id < |s.spans|
    ensures TableOk(SetStatus(s, id, status)) && Grows(s, SetStatus(s, id, status))
  {
  }

  predicate CloseStep(step: Step) {
    step.CloseClientScope? || step.CloseRestScope? || step.CloseServerScope?
  }

  lemma SpanStepTable(s: State, step: Step)
    requires TableOk(s) && Enabled(s, step) && SpanStep(step)
    requires step.StartServerSpan? && s.calls[step.request].parent.Some? ==>
      var context := s.calls[step.request].parent.value;
      context.spanId < |s.spans| && s.spans[context.spanId].traceId == context.traceId
    ensures TableOk(Apply(s, step)) && Grows(s, Apply(s, step))
  {
    var t := ThreadOf(s, step);
    match step {
      case EnterRest(_, _, _) => StartKeepsSpans(s, t, None, Internal);
      case StartClientSpan(_) => StartKeepsSpans(s, t, None, Client);
      case StartServerSpan(r) => StartKeepsSpans(s, t, s.calls[r].parent, Server);
    }
  }

  lemma CloseStepTable(s: State, step: Step)
    requires TableOk(s) && Enabled(s, step) && CloseStep(step)
    ensures TableOk(Apply(s, step)) && Grows(s, Apply(s, step))
  {
    var t := ThreadOf(s, step);
    match step {
      case CloseClientScope(r) => CloseKeepsTable(s, t, s.requests[r].clientSpan);
      case CloseRestScope(r) => CloseKeepsTable(s, t, s.requests[r].restSpan);
      case CloseServerScope(r) => CloseKeepsTable(s, t, s.calls[r].serverSpan);
    }
  }

  lemma OtherStepTable(s: State, step: Step)
    requires TableOk(s) && Enabled(s, step) && !SpanStep(step) && !CloseStep(step)
    ensures TableOk(Apply(s, step)) && Grows(s, Apply(s, step))
  {
    match step {
      case Answer(r, ok) => StatusKeepsTable(s, s.requests[r].clientSpan, if ok then StatusOk else StatusError);
      case Serve(r, ok) => StatusKeepsTable(s, s.calls[r].serverSpan, StatusOk);
      case _ =>
    }
  }

  lemma StepTable(s: State, step: Step)
    requires TableOk(s) && Enabled(s, step)
    requires step.StartServerSpan? && s.calls[step.request].parent.Some? ==>
      var context := s.calls[step.request].parent.value;
      context.spanId < |s.spans| && s.spans[context.spanId].traceId == context.traceId
    ensures TableOk(Apply(s, step)) && Grows(s, Apply(s, step))
  {
    hide Apply, TableOk, Grows;
    if SpanStep(step) {
      SpanStepTable(s, step);
    } else if CloseStep(step) {
      CloseStepTable(s, step);
    } else {
      OtherStepTable(s, step);
    }
  }

  // ---------- the gateway's steps ----------

  lemma EnterRestKeeps(s: State, step: Step, r: RequestId)
    requires step.EnterRest? && step.request == r && Enabled(s, step)
    requires TableOk(s) && r !in s.calls
    requires Grows(s, Apply(s, step))
    ensures RequestOk(Apply(s, step), r)
  {
  }

  lemma CountRestKeeps(s: State, step: Step, r: RequestId)
    requires step.CountRest? && step.request == r && Enabled(s, step)
    requires RequestOk(s, r)
    requires Grows(s, Apply(s, step))
    ensures RequestOk(Apply(s, step), r)
  {
  }

  lemma StartClientSpanKeeps(s: State, step: Step, r: RequestId)
    requires step.StartClientSpan? && step.request == r && Enabled(s, step)
    requires RequestOk(s, r)
    requires Grows(s, Apply(s, step))
    ensures RequestOk(Apply(s, step), r)
  {
    var s' := Apply(s, step);
    var q := s.requests[r];
    assert SameSpan(s.spans[q.restSpan], s'.spans[q.restSpan]);
    assert q.entry + [q.restSpan] + [|s.spans|] == q.entry + [q.restSpan, |s.spans|];
  }

  lemma InjectKeeps(s: State, step: Step, r: RequestId)
    requires step.Inject? && step.request == r && Enabled(s, step)
    requires RequestOk(s, r)
    requires Grows(s, Apply(s, step))
    ensures RequestOk(Apply(s, step), r)
  {
    var s' := Apply(s, step);
    assert Top(StackOf(s, s.requests[r].thread)) == Some(s.requests[r].clientSpan);
  }

  lemma SendKeeps(s: State, step: Step, r: RequestId)
    requires step.Send? && step.request == r && Enabled(s, step)
    requires RequestOk(s, r)
    requires Grows(s, Apply(s, step))
    ensures RequestOk(Apply(s, step), r) && CallOk(Apply(s, step), r)
  {
  }

  lemma AnswerKeeps(s: State, step: Step, r: RequestId)
    requires step.Answer? && step.request == r && Enabled(s, step)
    requires RequestOk(s, r) && r in s.calls && CallOk(s, r)
    requires Grows(s, Apply(s, step))
    ensures RequestOk(Apply(s, step), r) && CallOk(Apply(s, step), r)
  {
    var s' := Apply(s, step);
    CallFrame(s, s', r);
  }

  lemma CloseClientScopeKeeps(s: State, step: Step, r: RequestId)
    requires step.CloseClientScope? && step.request == r && Enabled(s, step)
    requires RequestOk(s, r) && r in s.calls && CallOk(s, r)
    requires Grows(s, Apply(s, step))
    ensures RequestOk(Apply(s, step), r) && CallOk(Apply(s, step), r)
  {
    var s' := Apply(s, step);
    var q := s.requests[r];
    DetachSecond(q.entry, q.restSpan, q.clientSpan);
    CallFrame(s, s', r);
  }

  lemma CloseRestScopeKeeps(s: State, step: Step, r: RequestId)
    requires step.CloseRestScope? && step.request == r && Enabled(s, step)
    requires RequestOk(s, r) && r in s.calls && CallOk(s, r)
    requires Grows(s, Apply(s, step))
    ensures RequestOk(Apply(s, step), r) && CallOk(Apply(s, step), r)
  {
    var s' := Apply(s, step);
    DetachTop(s.requests[r].entry, s.requests[r].restSpan);
    CallFrame(s, s', r);
  }

  // ---------- the server's steps ----------

  lemma ExtractKeeps(s: State, step: Step, r: RequestId)
    requires step.Extract? && step.request == r && Enabled(s, step)
    requires r in s.requests && RequestOk(s, r) && CallOk(s, r) && InTable(s, StackOf(s, step.thread))
    requires Grows(s, Apply(s, step))
    ensures RequestOk(Apply(s, step), r) && CallOk(Apply(s, step), r)
  {
    var s' := Apply(s, step);
    RequestFrame(s, s', r);
    assert StackOf(s, step.thread) + [] == StackOf(s, step.thread);
  }

  lemma StartServerSpanKeeps(s: State, step: Step, r: RequestId)
    requires step.StartServerSpan? && step.request == r && Enabled(s, step)
    requires r in s.requests && RequestOk(s, r) && CallOk(s, r)
    requires Grows(s, Apply(s, step))
    ensures RequestOk(Apply(s, step), r) && CallOk(Apply(s, step), r)
  {
    var s' := Apply(s, step);
    RequestFrame(s, s', r);
    assert s.calls[r].entry + [] == s.calls[r].entry;
  }

  lemma CountRpcKeeps(s: State, step: Step, r: RequestId)
    requires step.CountRpc? && step.request == r && Enabled(s, step)
    requires r in s.requests && RequestOk(s, r) && CallOk(s, r)
    requires Grows(s, Apply(s, step))
    ensures RequestOk(Apply(s, step), r) && CallOk(Apply(s, step), r)
  {
    var s' := Apply(s, step);
    RequestFrame(s, s', r);
  }

  lemma ServeKeeps(s: State, step: Step, r: RequestId)
    requires step.Serve? && step.request == r && Enabled(s, step)
    requires r in s.requests && RequestOk(s, r) && CallOk(s, r)
    requires Grows(s, Apply(s, step))
    ensures RequestOk(Apply(s, step), r) && CallOk(Apply(s, step), r)
  {
    var s' := Apply(s, step);
    RequestFrame(s, s', r);
  }

  lemma CloseServerScopeKeeps(s: State, step: Step, r: RequestId)
    requires step.CloseServerScope? && step.request == r && Enabled(s, step)
    requires r in s.requests && RequestOk(s, r) && CallOk(s, r)
    requires Grows(s, Apply(s, step))
    ensures RequestOk(Apply(s, step), r) && CallOk(Apply(s, step), r)
  {
    var s' := Apply(s, step);
    DetachTop(s.calls[r].entry, s.calls[r].serverSpan);
    RequestFrame(s, s', r);
  }

  // ---------- every run ----------

  predicate OwnOk(s: State, r: RequestId) {
    && (r in s.requests ==> RequestOk(s, r))
    && (r in s.calls ==> r in s.requests && CallOk(s, r))
  }

  lemma GatewayOwnKeeps(s: State, step: Step, r: RequestId)
    requires TableOk(s) && Enabled(s, step) && step.request == r && Grows(s, Apply(s, step)) && OwnOk(s, r)
    requires !ServerStep(step) && !step.StartServerSpan?
    ensures r in Apply(s, step).requests && OwnOk(Apply(s, step), r)
  {
    hide TableOk, Grows;
    match step
    case EnterRest(_, _, _) => EnterRestKeeps(s, step, r);
    case CountRest(_) => CountRestKeeps(s, step, r);
    case StartClientSpan(_) => StartClientSpanKeeps(s, step, r);
    case Inject(_) => InjectKeeps(s, step, r);
    case Send(_) => SendKeeps(s, step, r);
    case Answer(_, _) => AnswerKeeps(s, step, r);
    case CloseClientScope(_) => CloseClientScopeKeeps(s, step, r);
    case CloseRestScope(_) => CloseRestScopeKeeps(s, step, r);
  }

  lemma ServerOwnKeeps(s: State, step: Step, r: RequestId)
    requires TableOk(s) && Enabled(s, step) && step.request == r && Grows(s, Apply(s, step)) && OwnOk(s, r)
    requires ServerStep(step) || step.StartServerSpan?
    ensures r in Apply(s, step).requests && OwnOk(Apply(s, step), r)
  {
    hide Grows;
    match step
    case Extract(_, _, _) => ExtractKeeps(s, step, r);
    case StartServerSpan(_) => StartServerSpanKeeps(s, step, r);
    case CountRpc(_) => CountRpcKeeps(s, step, r);
    case Serve(_, _) => ServeKeeps(s, step, r);
    case CloseServerScope(_) => CloseServerScopeKeeps(s, step, r);
  }

  /** A step runs on a thread that is free or already works for the request. */
  lemma OwnThread(s: State, step: Step, r: RequestId)
    requires Enabled(s, step) && step.request == r
    requires (r in s.requests ==> RequestOk(s, r)) && (r in s.calls ==> CallOk(s, r))
    ensures var t := ThreadOf(s, step); t in s.running ==> s.running[t].request == r
  {
  }

  /** Everything about one step that does not need the other requests. */
  lemma StepFacts(s: State, step: Step, r: RequestId)
    requires TableOk(s) && Enabled(s, step) && step.request == r
    requires (r in s.requests ==> RequestOk(s, r)) && (r in s.calls ==> CallOk(s, r))
    ensures var s' := Apply(s, step);
      && OnlyTouches(s, s', r, ThreadOf(s, step)) && Grows(s, s') && TableOk(s') && CountsStep(s, s', r)
      && r in s'.requests && RequestOk(s', r) && (r in s'.calls ==> CallOk(s', r))
  {
    hide Apply, OnlyTouches, Grows, TableOk, CountsStep;
    OwnThread(s, step, r);
    if SpanStep(step) {
      SpanStepTouches(s, step);
    } else if ServerStep(step) {
      ServerStepTouches(s, step);
    } else {
      GatewayStepTouches(s, step);
    }
    StepCounts(s, step);
    StepTable(s, step);
    if ServerStep(step) || step.StartServerSpan? {
      ServerOwnKeeps(s, step, r);
    } else {
      GatewayOwnKeeps(s, step, r);
    }
  }

  lemma StepKeeps(s: State, step: Step)
    requires Inv(s) && Enabled(s, step)
    ensures Inv(Apply(s, step))
  {
    hide Apply, RequestOk, CallOk, OnlyTouches, Grows, CountsStep, SpansOk;
    var r := step.request;
    StepFacts(s, step, r);
    KeepStep(s, Apply(s, step), r, ThreadOf(s, step));
  }

  /** Every reachable state is in order: the tree, the stacks, the metadata and the counters. */
  lemma {:induction false} RunKeeps(s: State, steps: seq<Step>)
    requires Inv(s) && ValidRun(s, steps)
    ensures Inv(Final(s, steps))
    decreases |steps|
  {
    hide Apply, Inv;
    if steps != [] {
      StepKeeps(s, steps[0]);
      RunKeeps(Apply(s, steps[0]), steps[1..]);
    }
  }

  lemma InitIsInv(s: State)
    requires Init(s)
    ensures Inv(s)
  {
    assert CountedRequests(s) == {} && CountedCalls(s) == {};
  }
}
