/** The tracing macros of `tracer_commons.h` and the metadata carriers of `observability.cc`, as
    they run on one thread. Each is proved against the functions of the propagation protocol. */
module TracerCommons {
  import opened Wrappers
  import opened Propagation

  /** The header under which the propagator stores the context (W3C Trace Context section 3.2). */
  const TRACEPARENT := "traceparent"

  datatype StartSpanOptions = StartSpanOptions(kind: SpanKind, parent: Option<SpanContext>)

  /** The contexts current on a thread, innermost last. */
  class RuntimeContext {
    var stack: seq<SpanId>

    method Attach(id: SpanId)
      modifies this
      ensures stack == old(stack) + [id]
    {
      stack := stack + [id];
    }

    /** The library's detach: nothing for a token that is not attached, else everything down to it. */
    method DetachToken(token: SpanId)
      modifies this
      ensures stack == Detach(old(stack), token)
      ensures token !in old(stack) ==> stack == old(stack)
      ensures token in old(stack) ==>
        && |stack| < |old(stack)| && stack == old(stack)[..|stack|] && old(stack)[|stack|] == token
        && token !in old(stack)[|stack| + 1..]
    {
      if token !in stack {
        return;
      }
      while stack[|stack| - 1] != token
        invariant token in stack && |stack| <= |old(stack)| && stack == old(stack)[..|stack|]
        invariant token !in old(stack)[|stack|..]
        invariant Detach(stack, token) == Detach(old(stack), token)
        decreases |stack|
      {
        assert stack == stack[..|stack| - 1] + [stack[|stack| - 1]];
        stack := stack[..|stack| - 1];
      }
      stack := stack[..|stack| - 1];
    }
  }

  class Tracer {
    var spans: seq<Span>
    var nextTrace: nat

    /** An explicit parent wins over the current span; without either the span roots a trace. */
    method StartSpan(options: StartSpanOptions, current: Option<SpanId>) returns (id: SpanId)
      requires current.Some? ==> current.value < |spans|
      modifies this
      ensures id == |old(spans)|
      ensures |spans| == id + 1 && spans[..id] == old(spans)
      ensures spans[id].kind == options.kind && spans[id].status == Unset
      ensures match options.parent
        case Some(context) => spans[id].traceId == context.traceId && spans[id].parent == Some(context.spanId)
        case None =>
          && spans[id].parent == current
          && spans[id].traceId == if current.Some? then old(spans)[current.value].traceId else old(nextTrace)
      ensures nextTrace == if spans[id].parent.None? then old(nextTrace) + 1 else old(nextTrace)
    {
      id := |spans|;
      var span := Span(nextTrace, None, options.kind, Unset);
      if options.parent.Some? {
        span := span.(traceId := options.parent.value.traceId, parent := Some(options.parent.value.spanId));
      } else if current.Some? {
        span := span.(traceId := spans[current.value].traceId, parent := current);
      } else {
        nextTrace := nextTrace + 1;
      }
      spans := spans + [span];
    }

    method SetStatus(id: SpanId, status: StatusCode)
      requires id < |spans|
      modifies this`spans
      ensures spans == old(spans)[id := old(spans)[id].(status := status)]
    {
      spans := spans[id := spans[id].(status := status)];
    }
  }

  /** Call metadata: several values may be added under one key. */
  class CallMetadata {
    var entries: seq<(string, SpanContext)>

    constructor ()
      ensures entries == []
    {
      entries := [];
    }

    /** `GrpcClientCarrier::Set`. */
    method Set(key: string, value: SpanContext)
      modifies this
      ensures entries == old(entries) + [(key, value)]
    {
      entries := entries + [(key, value)];
    }

    /** `GrpcServerCarrier::Get`: the first value under the key. */
    method Get(key: string) returns (value: Option<SpanContext>)
      ensures value.None? <==> forall i | 0 <= i < |entries| :: entries[i].0 != key
      ensures value.Some? ==> exists i | 0 <= i < |entries| ::
        entries[i] == (key, value.value) && forall j | 0 <= j < i :: entries[j].0 != key
    {
      for i := 0 to |entries|
        invariant forall j | 0 <= j < i :: entries[j].0 != key
      {
        if entries[i].0 == key {
          return Some(entries[i].1);
        }
      }
      value := None;
    }
  }

  /** The thread's part of a protocol state agrees with the tracer and the thread's contexts. */
  ghost predicate Agrees(s: State, t: ThreadId, tracer: Tracer, ctx: RuntimeContext)
    reads tracer, ctx
  {
    s.spans == tracer.spans && s.nextTrace == tracer.nextTrace && StackOf(s, t) == ctx.stack
  }

  /** `START_SPAN_BEGIN` to `START_SPAN_END`: start with the given options and make current. */
  method StartSpanAndScope(tracer: Tracer, ctx: RuntimeContext, options: StartSpanOptions, ghost s: State, ghost t: ThreadId)
    returns (span: SpanId)
    requires Agrees(s, t, tracer, ctx) && InTable(s, StackOf(s, t))
    modifies tracer, ctx
    ensures span == |s.spans|
    ensures Agrees(StartCurrent(s, t, options.parent, options.kind), t, tracer, ctx)
  {
    var current := Top(ctx.stack);
    span := tracer.StartSpan(options, current);
    ctx.Attach(span);
    assert tracer.spans == s.spans + [tracer.spans[span]];
  }

  /** `INJECT_GRPC_CTX_AND_START_SPAN`: the client span is current before the context is injected,
      so what the call carries is the client span itself. */
  method InjectGrpcCtxAndStartSpan(tracer: Tracer, ctx: RuntimeContext, call: CallMetadata, ghost s: State, ghost t: ThreadId)
    returns (span: SpanId)
    requires Agrees(s, t, tracer, ctx) && InTable(s, StackOf(s, t))
    modifies tracer, ctx, call
    ensures span == |s.spans|
    ensures var s' := StartCurrent(s, t, None, Client);
      && Agrees(s', t, tracer, ctx)
      && InjectedContext(s', Top(StackOf(s', t))) == Some(SpanContext(s'.spans[span].traceId, span))
      && call.entries == old(call.entries) + [(TRACEPARENT, SpanContext(s'.spans[span].traceId, span))]
  {
    span := StartSpanAndScope(tracer, ctx, StartSpanOptions(Client, None), s, t);
    var current := Top(ctx.stack);
    if current.Some? {
      call.Set(TRACEPARENT, SpanContext(tracer.spans[current.value].traceId, current.value));
    }
  }

  /** `EXTRACT_GRPC_CTX_AND_START_SPAN`: the parent is the first context in the metadata, if any. */
  method ExtractGrpcCtxAndStartSpan(tracer: Tracer, ctx: RuntimeContext, call: CallMetadata, ghost s: State, ghost t: ThreadId)
    returns (span: SpanId, ghost parent: Option<SpanContext>)
    requires Agrees(s, t, tracer, ctx) && InTable(s, StackOf(s, t))
    modifies tracer, ctx
    ensures span == |s.spans|
    ensures Agrees(StartCurrent(s, t, parent, Server), t, tracer, ctx)
    ensures parent.None? <==> forall i | 0 <= i < |call.entries| :: call.entries[i].0 != TRACEPARENT
    ensures parent.Some? ==> exists i | 0 <= i < |call.entries| ::
      call.entries[i] == (TRACEPARENT, parent.value) && forall j | 0 <= j < i :: call.entries[j].0 != TRACEPARENT
  {
    var options := StartSpanOptions(Internal, None);
    options := options.(kind := Server);
    var extracted := call.Get(TRACEPARENT);
    options := options.(parent := extracted);
    span := StartSpanAndScope(tracer, ctx, options, s, t);
    parent := extracted;
  }

  /** A whole REST handler with its call, on its own thread: whatever the status, and whether it
      returns or throws, the thread's contexts are back when it ends. */
  method HandleRest(tracer: Tracer, ctx: RuntimeContext, operation: Operation, statusOk: bool, ghost s: State, ghost t: ThreadId)
    returns (outcome: Outcome, restSpan: SpanId, clientSpan: SpanId)
    requires Agrees(s, t, tracer, ctx) && InTable(s, StackOf(s, t))
    modifies tracer, ctx
    ensures ctx.stack == old(ctx.stack)
    ensures outcome == if statusOk || operation.ReadUsers? then Returned else Thrown
    ensures restSpan == |s.spans| && clientSpan == restSpan + 1 && |tracer.spans| == clientSpan + 1
    ensures tracer.spans[clientSpan].parent == Some(restSpan)
    ensures tracer.spans[clientSpan].status == if statusOk then StatusOk else StatusError
  {
    hide StartCurrent, Detach;
    restSpan := StartSpanAndScope(tracer, ctx, StartSpanOptions(Internal, None), s, t);
    ghost var s1 := StartCurrent(s, t, None, Internal);
    StartedOnTop(s, t, None, Internal);
    var call := new CallMetadata();
    clientSpan := InjectGrpcCtxAndStartSpan(tracer, ctx, call, s1, t);
    StartedOnTop(s1, t, None, Client);
    if statusOk {
      tracer.SetStatus(clientSpan, StatusOk);
    } else {
      tracer.SetStatus(clientSpan, StatusError);
    }
    ctx.DetachToken(clientSpan);
    outcome := if statusOk || operation.ReadUsers? then Returned else Thrown;
    ctx.DetachToken(restSpan);
  }

  /** A span started on a thread is its current context, and closing its scope undoes that. */
  lemma StartedOnTop(s: State, t: ThreadId, explicit: Option<SpanContext>, kind: SpanKind)
    requires InTable(s, StackOf(s, t))
    ensures var s' := StartCurrent(s, t, explicit, kind);
      && InTable(s', StackOf(s', t))
      && StackOf(s', t) == StackOf(s, t) + [|s.spans|]
      && Detach(StackOf(s', t), |s.spans|) == StackOf(s, t)
      && |s'.spans| == |s.spans| + 1
      && (explicit.None? ==> s'.spans[|s.spans|].parent == Top(StackOf(s, t)))
  {
  }
}
