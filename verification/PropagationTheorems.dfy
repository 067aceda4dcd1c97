/** What holds in every reachable state of the propagation protocol. */
module PropagationTheorems {
  import opened Propagation
  import opened PropagationInvariant
  import opened Wrappers

  // ---------- each request has spans of its own, and their status is true ----------

  predicate Distinct(s: State) {
    forall r, q :: r in s.requests && q in s.requests && r != q ==> s.requests[r].restSpan != s.requests[q].restSpan
  }

  /** The client span says how the call ended. */
  predicate ClientStatusTrue(s: State, r: RequestId)
    requires r in s.requests
  {
    var q := s.requests[r];
    q.point.Rank() >= Answered.Rank() ==>
      && q.clientSpan < |s.spans|
      && s.spans[q.clientSpan].status == if q.statusOk then StatusOk else StatusError
  }

  /** A successfully served call has a successful server span. */
  predicate ServerStatusTrue(s: State, r: RequestId) {
    r in s.calls && s.calls[r].statusOk ==>
      s.calls[r].serverSpan < |s.spans| && s.spans[s.calls[r].serverSpan].status == StatusOk
  }

  /** The call's server span exists, with or without a parent from the metadata. */
  predicate ServerStarted(s: State, r: RequestId) {
    r in s.calls && s.calls[r].point.Rank() >= Serving.Rank()
  }

  ghost predicate ServersDistinct(s: State) {
    forall r, q | ServerStarted(s, r) && ServerStarted(s, q) && r != q :: s.calls[r].serverSpan != s.calls[q].serverSpan
  }

  ghost predicate Strong(s: State) {
    && Inv(s)
    && Distinct(s) && ServersDistinct(s)
    && (forall r :: r in s.requests ==> ClientStatusTrue(s, r))
    && (forall r :: r in s.calls ==> ServerStatusTrue(s, r))
  }

  lemma DistinctKeeps(s: State, step: Step)
    requires Inv(s) && Distinct(s) && Enabled(s, step)
    ensures Distinct(Apply(s, step))
  {
    hide Apply, Enabled, Inv;
    var s' := Apply(s, step);
    forall r, q | r in s'.requests && q in s'.requests && r != q
      ensures s'.requests[r].restSpan != s'.requests[q].restSpan
    {
      RestSpanKept(s, step, r);
      RestSpanKept(s, step, q);
      if r in s.requests {
        RestSpanInTable(s, r);
      }
      if q in s.requests {
        RestSpanInTable(s, q);
      }
    }
  }

  lemma RestSpanKept(s: State, step: Step, r: RequestId)
    requires Enabled(s, step) && r in Apply(s, step).requests
    ensures r in s.requests ==> Apply(s, step).requests[r].restSpan == s.requests[r].restSpan
    ensures r !in s.requests ==> step.EnterRest? && step.request == r && Apply(s, step).requests[r].restSpan == |s.spans|
  {
  }

  /** A step starts no server span, or one at the end of the table. */
  lemma ServerSpanNew(s: State, step: Step, r: RequestId)
    requires Enabled(s, step) && (r in s.calls ==> CallOk(s, r))
    requires ServerStarted(Apply(s, step), r)
    ensures if step == StartServerSpan(r) then Apply(s, step).calls[r].serverSpan == |s.spans|
      else ServerStarted(s, r) && Apply(s, step).calls[r].serverSpan == s.calls[r].serverSpan < |s.spans|
  {
  }

  lemma ServersDistinctKeeps(s: State, step: Step)
    requires (forall r :: r in s.calls ==> CallOk(s, r)) && ServersDistinct(s) && Enabled(s, step)
    ensures ServersDistinct(Apply(s, step))
  {
    hide Apply, CallOk;
    var s' := Apply(s, step);
    forall r, q | ServerStarted(s', r) && ServerStarted(s', q) && r != q
      ensures s'.calls[r].serverSpan != s'.calls[q].serverSpan
    {
      ServerSpanNew(s, step, r);
      ServerSpanNew(s, step, q);
    }
  }

  lemma RestSpanInTable(s: State, r: RequestId)
    requires Inv(s) && r in s.requests
    ensures s.requests[r].restSpan < |s.spans|
  {
    assert RequestOk(s, r);
  }

  /** The span whose status a step sets, if any. */
  function StatusTarget(s: State, step: Step): Option<SpanId>
    requires Enabled(s, step)
  {
    match step
    case Answer(r, _) => Some(s.requests[r].clientSpan)
    case Serve(r, true) => Some(s.calls[r].serverSpan)
    case _ => None
  }

  lemma StatusFrame(s: State, step: Step, id: SpanId)
    requires Enabled(s, step) && id < |s.spans| && StatusTarget(s, step) != Some(id)
    ensures id < |Apply(s, step).spans| && Apply(s, step).spans[id].status == s.spans[id].status
  {
  }

  /** Client spans of different requests differ: they have different parents. */
  lemma ClientSpansApart(s: State, r: RequestId, p: RequestId)
    requires Distinct(s) && r in s.requests && p in s.requests && r != p && RequestOk(s, r) && RequestOk(s, p)
    requires s.requests[r].point.Rank() >= Calling.Rank() && s.requests[p].point.Rank() >= Calling.Rank()
    ensures s.requests[r].clientSpan != s.requests[p].clientSpan
  {
  }

  lemma ClientStatusKept(s: State, step: Step, r: RequestId)
    requires Distinct(s) && Enabled(s, step) && r in s.requests && RequestOk(s, r)
    requires step.Answer? ==> RequestOk(s, step.request)
    requires step.Serve? ==> CallOk(s, step.request)
    requires s.requests[r].point.Rank() >= Answered.Rank()
    ensures StatusTarget(s, step) != Some(s.requests[r].clientSpan)
  {
    if step.Answer? {
      ClientSpansApart(s, r, step.request);
    }
  }

  lemma ServerStatusKept(s: State, step: Step, r: RequestId)
    requires Enabled(s, step) && r in s.calls && CallOk(s, r) && s.calls[r].statusOk
    requires step.Answer? ==> RequestOk(s, step.request)
    requires s.spans[s.calls[r].serverSpan].status == StatusOk
    ensures s.calls[r].serverSpan < |Apply(s, step).spans|
    ensures Apply(s, step).spans[s.calls[r].serverSpan].status == StatusOk
  {
    if StatusTarget(s, step) != Some(s.calls[r].serverSpan) {
      StatusFrame(s, step, s.calls[r].serverSpan);
    }
  }

  lemma OwnClientStatus(s: State, step: Step, r: RequestId)
    requires Distinct(s) && Enabled(s, step) && r in s.requests && ClientStatusTrue(s, r)
    requires RequestOk(s, r)
    requires (step.Answer? ==> RequestOk(s, step.request)) && (step.Serve? ==> CallOk(s, step.request))
    ensures r in Apply(s, step).requests && ClientStatusTrue(Apply(s, step), r)
  {
    hide Apply;
    if s.requests[r].point.Rank() >= Answered.Rank() {
      ClientStatusKept(s, step, r);
      StatusFrame(s, step, s.requests[r].clientSpan);
      AnswerKept(s, step, r);
    } else {
      hide Distinct;
      FreshAnswer(s, step, r);
    }
  }

  lemma FreshAnswer(s: State, step: Step, r: RequestId)
    requires Enabled(s, step) && r in s.requests && s.requests[r].point.Rank() < Answered.Rank()
    ensures r in Apply(s, step).requests && ClientStatusTrue(Apply(s, step), r)
  {
  }

  lemma AnswerKept(s: State, step: Step, r: RequestId)
    requires Enabled(s, step) && r in s.requests && s.requests[r].point.Rank() >= Answered.Rank()
    ensures r in Apply(s, step).requests
    ensures Apply(s, step).requests[r].clientSpan == s.requests[r].clientSpan
    ensures Apply(s, step).requests[r].statusOk == s.requests[r].statusOk
  {
  }

  lemma NewRequestStatus(s: State, step: Step, r: RequestId)
    requires Enabled(s, step) && r !in s.requests && r in Apply(s, step).requests
    ensures ClientStatusTrue(Apply(s, step), r)
  {
  }

  lemma OwnServerStatus(s: State, step: Step, r: RequestId)
    requires Enabled(s, step) && ServerStatusTrue(s, r) && (r in s.calls ==> CallOk(s, r))
    requires (step.request in s.requests ==> RequestOk(s, step.request)) && (step.request in s.calls ==> CallOk(s, step.request))
    ensures ServerStatusTrue(Apply(s, step), r)
  {
    if r in s.calls && s.calls[r].statusOk {
      ServerStatusKept(s, step, r);
    }
  }

  lemma StatusKeeps(s: State, step: Step, r: RequestId)
    requires Strong(s) && Enabled(s, step)
    ensures r in Apply(s, step).requests ==> ClientStatusTrue(Apply(s, step), r)
    ensures ServerStatusTrue(Apply(s, step), r)
  {
    hide Apply, ClientStatusTrue, ServerStatusTrue, SpansOk, InTable;
    var p := step.request;
    assert (p in s.requests ==> RequestOk(s, p)) && (p in s.calls ==> CallOk(s, p));
    assert (r in s.requests ==> RequestOk(s, r)) && (r in s.calls ==> CallOk(s, r));
    if r in s.requests {
      OwnClientStatus(s, step, r);
    } else if r in Apply(s, step).requests {
      NewRequestStatus(s, step, r);
    }
    OwnServerStatus(s, step, r);
  }

  lemma CallsAreOk(s: State)
    requires Inv(s)
    ensures forall r :: r in s.calls ==> CallOk(s, r)
  {
    hide CallOk;
  }

  lemma {:induction false} RunStrong(s: State, steps: seq<Step>)
    requires Strong(s) && ValidRun(s, steps)
    ensures Strong(Final(s, steps))
    decreases |steps|
  {
    hide Apply, Inv, Distinct, ServersDistinct, ClientStatusTrue, ServerStatusTrue;
    if steps != [] {
      var s' := Apply(s, steps[0]);
      StepKeeps(s, steps[0]);
      DistinctKeeps(s, steps[0]);
      CallsAreOk(s);
      ServersDistinctKeeps(s, steps[0]);
      forall r
        ensures r in s'.requests ==> ClientStatusTrue(s', r)
        ensures ServerStatusTrue(s', r)
      {
        StatusKeeps(s, steps[0], r);
      }
      RunStrong(s', steps[1..]);
    }
  }

  /** Every state that a run from an initial one can reach. */
  ghost predicate Reachable(s: State) {
    exists s0, steps | Init(s0) && ValidRun(s0, steps) :: s == Final(s0, steps)
  }

  lemma InitIsStrong(s: State)
    requires Init(s)
    ensures Strong(s)
  {
    InitIsInv(s);
  }

  lemma ReachableIsStrong(s: State)
    requires Reachable(s)
    ensures Strong(s)
  {
    hide Strong, Init;
    var s0, steps :| Init(s0) && ValidRun(s0, steps) && s == Final(s0, steps);
    InitIsStrong(s0);
    RunStrong(s0, steps);
  }

  /** What reachability says of the span table and of one request. */
  lemma ReachableParts(s: State, r: RequestId)
    requires Reachable(s)
    ensures TableOk(s)
    ensures r in s.requests ==> RequestOk(s, r) && ClientStatusTrue(s, r)
    ensures r in s.calls ==> r in s.requests && CallOk(s, r) && RequestOk(s, r) && ServerStatusTrue(s, r)
  {
    ReachableIsStrong(s);
    assert r in s.calls ==> CallOk(s, r);
  }

  lemma ReachableDistinct(s: State, r: RequestId, q: RequestId)
    requires Reachable(s) && r != q
    ensures r in s.requests && q in s.requests ==> s.requests[r].restSpan != s.requests[q].restSpan
    ensures ServerStarted(s, r) && ServerStarted(s, q) ==> s.calls[r].serverSpan != s.calls[q].serverSpan
  {
    hide Inv;
    ReachableIsStrong(s);
  }

  lemma {:induction false} RunAppend(s: State, steps: seq<Step>, more: seq<Step>)
    requires ValidRun(s, steps) && ValidRun(Final(s, steps), more)
    ensures ValidRun(s, steps + more) && Final(s, steps + more) == Final(Final(s, steps), more)
    decreases |steps|
  {
    hide Apply, Enabled;
    if steps == [] {
      assert steps + more == more;
    } else {
      assert (steps + more)[1..] == steps[1..] + more;
      RunAppend(Apply(s, steps[0]), steps[1..], more);
    }
  }

  lemma ReachableRun(s: State, steps: seq<Step>)
    requires Reachable(s) && ValidRun(s, steps)
    ensures Reachable(Final(s, steps))
  {
    hide Apply, Enabled, Init;
    var s0, before :| Init(s0) && ValidRun(s0, before) && s == Final(s0, before);
    RunAppend(s0, before, steps);
  }

  // ---------- the tree ----------

  /** A server span that received its call's metadata hangs under exactly the client span of its
      own request, that one under the request's REST span, and all three are of one trace.
      Without the metadata it hangs under whatever was current on its thread. */
  lemma ContextPropagated(s: State, r: RequestId)
    requires Reachable(s) && r in s.calls && s.calls[r].point.Rank() >= Serving.Rank()
    ensures r in s.requests
    ensures var (q, c) := (s.requests[r], s.calls[r]);
      && q.restSpan < q.clientSpan < |s.spans| && c.serverSpan < |s.spans|
      && s.spans[c.serverSpan].kind == Server && s.spans[q.clientSpan].kind == Client && s.spans[q.restSpan].kind == Internal
      && s.spans[q.clientSpan].parent == Some(q.restSpan)
      && s.spans[q.clientSpan].traceId == s.spans[q.restSpan].traceId
      && (c.parent.Some? ==>
            && s.spans[c.serverSpan].parent == Some(q.clientSpan)
            && s.spans[c.serverSpan].traceId == s.spans[q.restSpan].traceId)
      && (c.parent.None? ==> s.spans[c.serverSpan].parent == Top(c.entry))
  {
    ReachableParts(s, r);
    TreeOfRequest(s, r);
  }

  lemma TreeOfRequest(s: State, r: RequestId)
    requires SpansOk(s) && r in s.requests && r in s.calls && RequestOk(s, r) && CallOk(s, r)
    requires s.calls[r].point.Rank() >= Serving.Rank()
    ensures var (q, c) := (s.requests[r], s.calls[r]);
      && q.restSpan < q.clientSpan < |s.spans|
      && s.spans[q.clientSpan].traceId == s.spans[q.restSpan].traceId
      && (c.parent.Some? ==>
            && s.spans[c.serverSpan].parent == Some(q.clientSpan)
            && s.spans[c.serverSpan].traceId == s.spans[q.clientSpan].traceId)
  {
    var (q, c) := (s.requests[r], s.calls[r]);
    assert s.spans[q.clientSpan].parent == Some(q.restSpan);
    if c.parent.Some? {
      assert c.parent.value.spanId == q.clientSpan;
      assert s.spans[c.serverSpan].parent == Some(q.clientSpan);
    }
  }

  /** The metadata is received exactly when the header arrives: no call is sent without one. */
  lemma HeaderCarriesParent(s: State, step: Step)
    requires Reachable(s) && step.Extract? && Enabled(s, step)
    ensures Apply(s, step).calls[step.request].parent.Some? <==> step.header
  {
    ReachableIsStrong(s);
    assert CallOk(s, step.request);
  }

  /** Two requests never share a REST span, nor a client span, nor a server span. */
  lemma RequestsKeepApart(s: State, r: RequestId, q: RequestId)
    requires Reachable(s) && r != q && r in s.requests && q in s.requests
    ensures s.requests[r].restSpan != s.requests[q].restSpan
    ensures s.requests[r].point.Rank() >= Calling.Rank() && s.requests[q].point.Rank() >= Calling.Rank() ==>
      s.requests[r].clientSpan != s.requests[q].clientSpan
    ensures ServerStarted(s, r) && ServerStarted(s, q) ==> s.calls[r].serverSpan != s.calls[q].serverSpan
  {
    ReachableDistinct(s, r, q);
    ReachableParts(s, r);
    ReachableParts(s, q);
    if s.requests[r].point.Rank() >= Calling.Rank() && s.requests[q].point.Rank() >= Calling.Rank() {
      assert s.spans[s.requests[r].clientSpan].parent != s.spans[s.requests[q].clientSpan].parent;
    }
  }

  /** The root above a span: the end of its parent chain. */
  function RootOf(s: State, id: SpanId): (root: SpanId)
    requires SpansOk(s) && id < |s.spans|
    ensures root <= id && s.spans[root].parent.None? && s.spans[root].traceId == s.spans[id].traceId
    decreases id
  {
    match s.spans[id].parent
    case None => id
    case Some(parent) => RootOf(s, parent)
  }

  /** The span reached by following `n` parents. */
  function Ancestor(s: State, id: SpanId, n: nat): Option<SpanId>
    requires SpansOk(s) && id < |s.spans|
    decreases n
  {
    if n == 0 then Some(id)
    else match s.spans[id].parent
      case None => None
      case Some(parent) => Ancestor(s, parent, n - 1)
  }

  lemma {:induction false} AncestorsPrecede(s: State, id: SpanId, n: nat)
    requires SpansOk(s) && id < |s.spans| && n > 0 && Ancestor(s, id, n).Some?
    ensures Ancestor(s, id, n).value < id
    decreases n
  {
    var parent := s.spans[id].parent.value;
    if n > 1 {
      AncestorsPrecede(s, parent, n - 1);
    }
  }

  /** The span table is an acyclic forest whose trees are exactly the traces. */
  lemma SpanForest(s: State, i: SpanId, j: SpanId, n: nat)
    requires Reachable(s) && i < |s.spans| && j < |s.spans|
    ensures SpansOk(s)
    ensures n > 0 ==> Ancestor(s, i, n) != Some(i)
    ensures RootOf(s, i) == RootOf(s, j) <==> s.spans[i].traceId == s.spans[j].traceId
  {
    ReachableIsStrong(s);
    if n > 0 && Ancestor(s, i, n).Some? {
      AncestorsPrecede(s, i, n);
    }
  }

  /** Requests that began with no context current are in traces of their own. */
  lemma RequestsHaveOwnTraces(s: State, r: RequestId, q: RequestId)
    requires Reachable(s) && r != q && r in s.requests && q in s.requests
    requires s.requests[r].entry == [] && s.requests[q].entry == []
    ensures s.requests[r].restSpan < |s.spans| && s.requests[q].restSpan < |s.spans|
    ensures s.spans[s.requests[r].restSpan].traceId != s.spans[s.requests[q].restSpan].traceId
  {
    RequestsKeepApart(s, r, q);
    ReachableParts(s, r);
    ReachableParts(s, q);
  }

  // ---------- the context stacks ----------

  /** A request and its handler's thread and entry stack are fixed once it has begun. */
  lemma {:induction false} RequestFixed(s: State, steps: seq<Step>, r: RequestId)
    requires ValidRun(s, steps) && r in s.requests
    ensures r in Final(s, steps).requests
    ensures var (q, q') := (s.requests[r], Final(s, steps).requests[r]);
      q'.thread == q.thread && q'.entry == q.entry && q'.operation == q.operation && q'.restSpan == q.restSpan
    decreases |steps|
  {
    if steps != [] {
      RequestFixed(Apply(s, steps[0]), steps[1..], r);
    }
  }

  /** From the moment a REST handler begins until it ends, by success, failed status or throw,
      whatever else runs: its thread has the contexts it had on entry, with the handler's open
      scopes nested on top in order. When the handler ends, the entry contexts are back. */
  lemma RestHandlerBalanced(s: State, enter: Step, steps: seq<Step>)
    requires Reachable(s) && enter.EnterRest? && Enabled(s, enter) && ValidRun(Apply(s, enter), steps)
    ensures var s' := Final(Apply(s, enter), steps); var r := enter.request;
      && r in s'.requests
      && (!s'.requests[r].point.Finished? ==>
            StackOf(s', enter.thread) == StackOf(s, enter.thread) + RestScopes(s'.requests[r]))
      && (Enabled(s', CloseRestScope(r)) ==>
            StackOf(Apply(s', CloseRestScope(r)), enter.thread) == StackOf(s, enter.thread))
  {
    var r := enter.request;
    var s1 := Apply(s, enter);
    StepThenRun(s, enter, steps);
    RequestFixed(s1, steps, r);
    ReachableParts(Final(s1, steps), r);
    RestStack(Final(s1, steps), r);
  }

  lemma StepThenRun(s: State, step: Step, steps: seq<Step>)
    requires Reachable(s) && Enabled(s, step) && ValidRun(Apply(s, step), steps)
    ensures Reachable(Apply(s, step)) && Reachable(Final(Apply(s, step), steps))
  {
    hide Apply, Enabled, Init;
    assert ([step] + steps)[1..] == steps;
    assert ValidRun(s, [step]) && Final(s, [step]) == Apply(s, step);
    ReachableRun(s, [step]);
    ReachableRun(s, [step] + steps);
  }

  lemma RestStack(s: State, r: RequestId)
    requires r in s.requests && RequestOk(s, r)
    ensures var q := s.requests[r];
      && (!q.point.Finished? ==> StackOf(s, q.thread) == q.entry + RestScopes(q))
      && (Enabled(s, CloseRestScope(r)) ==> StackOf(Apply(s, CloseRestScope(r)), q.thread) == q.entry)
  {
    DetachTop(s.requests[r].entry, s.requests[r].restSpan);
  }

  lemma RpcStack(s: State, r: RequestId)
    requires r in s.calls && CallOk(s, r) && s.calls[r].point.Rank() >= Extracted.Rank()
    ensures var c := s.calls[r];
      && (!c.point.Replied? ==> StackOf(s, c.thread) == c.entry + RpcScopes(c))
      && (Enabled(s, CloseServerScope(r)) ==> StackOf(Apply(s, CloseServerScope(r)), c.thread) == c.entry)
  {
    DetachTop(s.calls[r].entry, s.calls[r].serverSpan);
  }

  /** A call's handler keeps its thread and entry stack once it has begun. */
  lemma {:induction false} CallFixed(s: State, steps: seq<Step>, r: RequestId)
    requires Reachable(s) && ValidRun(s, steps) && r in s.calls && s.calls[r].point.Rank() >= Extracted.Rank()
    ensures r in Final(s, steps).calls && Final(s, steps).calls[r].point.Rank() >= Extracted.Rank()
    ensures Final(s, steps).calls[r].thread == s.calls[r].thread && Final(s, steps).calls[r].entry == s.calls[r].entry
    decreases |steps|
  {
    if steps != [] {
      ReachableParts(s, r);
      CallStepFixed(s, steps[0], r);
      StepThenRun(s, steps[0], []);
      CallFixed(Apply(s, steps[0]), steps[1..], r);
    }
  }

  lemma CallStepFixed(s: State, step: Step, r: RequestId)
    requires Enabled(s, step) && r in s.calls && r in s.requests && RequestOk(s, r)
    requires s.calls[r].point.Rank() >= Extracted.Rank()
    ensures r in Apply(s, step).calls && Apply(s, step).calls[r].point.Rank() >= Extracted.Rank()
    ensures Apply(s, step).calls[r].thread == s.calls[r].thread && Apply(s, step).calls[r].entry == s.calls[r].entry
  {
  }

  /** The same balance for the server's side of a call, from extraction to the end of its handler. */
  lemma RpcHandlerBalanced(s: State, enter: Step, steps: seq<Step>)
    requires Reachable(s) && enter.Extract? && Enabled(s, enter) && ValidRun(Apply(s, enter), steps)
    ensures var s' := Final(Apply(s, enter), steps); var r := enter.request;
      && r in s'.calls
      && (!s'.calls[r].point.Replied? ==>
            StackOf(s', enter.thread) == StackOf(s, enter.thread) + RpcScopes(s'.calls[r]))
      && (Enabled(s', CloseServerScope(r)) ==>
            StackOf(Apply(s', CloseServerScope(r)), enter.thread) == StackOf(s, enter.thread))
  {
    var r := enter.request;
    var s1 := Apply(s, enter);
    StepThenRun(s, enter, []);
    StepThenRun(s, enter, steps);
    CallFixed(s1, steps, r);
    ReachableParts(Final(s1, steps), r);
    RpcStack(Final(s1, steps), r);
  }

  /** Scopes close in LIFO order: whichever scope closes, its own context is the current one, and
      closing it removes that context alone. */
  lemma ScopesCloseInOrder(s: State, step: Step)
    requires Reachable(s) && Enabled(s, step)
    requires step.CloseClientScope? || step.CloseRestScope? || step.CloseServerScope?
    ensures var stack := StackOf(s, ThreadOf(s, step));
      stack != [] && stack[|stack| - 1] == TokenOf(s, step) && StackOf(Apply(s, step), ThreadOf(s, step)) == stack[..|stack| - 1]
  {
    ReachableParts(s, step.request);
    CloseIsPop(s, step, step.request);
  }

  lemma CloseIsPop(s: State, step: Step, r: RequestId)
    requires Enabled(s, step) && step.request == r
    requires step.CloseClientScope? || step.CloseRestScope? || step.CloseServerScope?
    requires if step.CloseServerScope? then CallOk(s, r) else RequestOk(s, r)
    ensures var stack := StackOf(s, ThreadOf(s, step));
      stack != [] && stack[|stack| - 1] == TokenOf(s, step) && StackOf(Apply(s, step), ThreadOf(s, step)) == stack[..|stack| - 1]
  {
  }

  function TokenOf(s: State, step: Step): SpanId
    requires Enabled(s, step)
    requires step.CloseClientScope? || step.CloseRestScope? || step.CloseServerScope?
  {
    match step
    case CloseClientScope(r) => s.requests[r].clientSpan
    case CloseRestScope(r) => s.requests[r].restSpan
    case CloseServerScope(r) => s.calls[r].serverSpan
  }

  // ---------- progress ----------

  /** The step a REST handler takes next; an unanswered call may always end in a failure. */
  function NextRestStep(s: State, r: RequestId): Step
    requires r in s.requests && !s.requests[r].point.Finished?
  {
    match s.requests[r].point
    case Entered => CountRest(r)
    case Counted => StartClientSpan(r)
    case Calling => Inject(r)
    case Injected => Send(r)
    case Waiting => Answer(r, AtServer(s, r, Replied) && s.calls[r].statusOk)
    case Answered => CloseClientScope(r)
    case Unwound => CloseRestScope(r)
  }

  function NextRpcStep(s: State, r: RequestId): Step
    requires r in s.calls && Extracted.Rank() <= s.calls[r].point.Rank() < Replied.Rank()
  {
    match s.calls[r].point
    case Extracted => StartServerSpan(r)
    case Serving => CountRpc(r)
    case ServerCounted => Serve(r, true)
    case Served => CloseServerScope(r)
  }

  /** No handler is ever stuck: the conditions on the steps never shut out its next one. */
  lemma HandlersProgress(s: State, r: RequestId)
    requires Reachable(s)
    ensures r in s.requests && !s.requests[r].point.Finished? ==> Enabled(s, NextRestStep(s, r))
    ensures r in s.calls && Extracted.Rank() <= s.calls[r].point.Rank() < Replied.Rank() ==> Enabled(s, NextRpcStep(s, r))
  {
    hide Reachable, Enabled, RequestOk, CallOk, TableOk;
    ReachableParts(s, r);
    if r in s.requests && !s.requests[r].point.Finished? {
      RestProgress(s, r);
    }
    if r in s.calls && Extracted.Rank() <= s.calls[r].point.Rank() < Replied.Rank() {
      RpcProgress(s, r);
    }
  }

  lemma RestProgress(s: State, r: RequestId)
    requires TableOk(s) && r in s.requests && RequestOk(s, r) && !s.requests[r].point.Finished?
    ensures Enabled(s, NextRestStep(s, r))
  {
    hide SpansOk;
  }

  lemma RpcProgress(s: State, r: RequestId)
    requires TableOk(s) && r in s.calls && CallOk(s, r) && Extracted.Rank() <= s.calls[r].point.Rank() < Replied.Rank()
    ensures Enabled(s, NextRpcStep(s, r))
  {
    hide SpansOk;
  }

  // ---------- counters and outcomes ----------

  function EnteredOnly(s: State): set<RequestId> {
    set r | r in s.requests && !PastRestCount(s, r)
  }

  function NotCountedAtServer(s: State): set<RequestId> {
    set r | r in s.calls && !PastRpcCount(s, r)
  }

  /** The gateway counter is the number of handlers past their counting line; the server counter
      is that number less the requests whose call the server has not counted, or never will. */
  lemma CountersConserved(s: State)
    requires Reachable(s)
    ensures s.gatewayCounter == |s.requests| - |EnteredOnly(s)|
    ensures s.serverCounter == s.gatewayCounter - |CountedRequests(s) - CountedCalls(s)|
    ensures s.serverCounter == |s.calls| - |NotCountedAtServer(s)|
  {
    ReachableCounts(s);
    Partition(s.requests.Keys, CountedRequests(s), EnteredOnly(s));
    Partition(CountedRequests(s), CountedCalls(s), CountedRequests(s) - CountedCalls(s));
    Partition(s.calls.Keys, CountedCalls(s), NotCountedAtServer(s));
  }

  lemma Partition(whole: set<RequestId>, part: set<RequestId>, rest: set<RequestId>)
    requires forall r :: (r in whole <==> r in part || r in rest) && !(r in part && r in rest)
    ensures |part| == |whole| - |rest|
  {
    assert whole == part + rest;
  }

  lemma ReachableCounts(s: State)
    requires Reachable(s)
    ensures s.gatewayCounter == |CountedRequests(s)| && s.serverCounter == |CountedCalls(s)|
    ensures CountedCalls(s) <= CountedRequests(s)
  {
    hide RequestOk, CallOk, SpansOk, InTable;
    ReachableIsStrong(s);
    forall r | r in CountedCalls(s)
      ensures r in CountedRequests(s)
    {
      ReachableParts(s, r);
      CountedBoth(s, r);
    }
  }

  lemma CountedBoth(s: State, r: RequestId)
    requires r in s.calls && r in s.requests && RequestOk(s, r)
    ensures PastRestCount(s, r)
  {
  }

  /** A handler that is answered has recorded the truth on its client span, and it ends by
      throwing only after a failed status; a success was really served. */
  lemma OutcomeIsTrue(s: State, r: RequestId)
    requires Reachable(s) && r in s.requests && s.requests[r].point.Rank() >= Answered.Rank()
    ensures var q := s.requests[r];
      && q.clientSpan < |s.spans|
      && (OutcomeOf(q).Thrown? <==> s.spans[q.clientSpan].status == StatusError && !q.operation.ReadUsers?)
      && (s.spans[q.clientSpan].status == StatusOk ==>
            && r in s.calls && s.calls[r].point == Replied && s.calls[r].statusOk
            && s.calls[r].serverSpan < |s.spans| && s.spans[s.calls[r].serverSpan].status == StatusOk)
  {
    ReachableParts(s, r);
  }
}
