/** Span and context propagation between the gateway and the user manager, as a step system.

    Any number of requests run on any number of threads, one step at a time in any order. The
    steps of a request are the ones the handlers take, in the order that the macros of
    `tracer_commons.h` fix. Thread-local contexts, the call metadata, the span table and the
    two request counters are the state. */
module Propagation {
  import opened Wrappers

  type SpanId = nat
  type ThreadId = nat
  type RequestId = nat

  datatype SpanKind = Internal | Client | Server

  datatype StatusCode = Unset | StatusOk | StatusError

  /** A started span. Identifiers are positions in the table, so a fresh one is never in use. */
  datatype Span = Span(traceId: nat, parent: Option<SpanId>, kind: SpanKind, status: StatusCode)

  /** What the propagator carries: the ids of the injected span. */
  datatype SpanContext = SpanContext(traceId: nat, spanId: SpanId)

  datatype Operation = ReadUsers | ReadUser | CreateUser

  /** How a REST handler ends: it returns an entity, or throws because the service gave none. */
  datatype Outcome = Returned | Thrown

  /** Where a REST handler stands: one constructor per line that matters. */
  datatype GatewayPoint =
    | Entered      // REST span current
    | Counted      // request counter raised
    | Calling      // client span current
    | Injected     // context injected into the call metadata
    | Waiting      // call sent
    | Answered     // final status known and put on the client span
    | Unwound      // client scope closed
    | Finished     // REST scope closed
  {
    function Rank(): nat {
      match this
      case Entered => 0 case Counted => 1 case Calling => 2 case Injected => 3
      case Waiting => 4 case Answered => 5 case Unwound => 6 case Finished => 7
    }
  }

  /** A REST request. `entry` is the context stack its thread had when the handler began. */
  datatype Request = Request(
    operation: Operation,
    thread: ThreadId,
    entry: seq<SpanId>,
    point: GatewayPoint,
    restSpan: SpanId,
    clientSpan: SpanId,
    metadata: Option<SpanContext>,
    statusOk: bool)

  datatype ServerPoint =
    | InFlight     // sent, not yet at the server
    | Extracted    // handler entered, parent taken from the metadata
    | Serving      // server span current
    | ServerCounted
    | Served       // body done, or left by an exception
    | Replied      // server scope closed
  {
    function Rank(): nat {
      match this
      case InFlight => 0 case Extracted => 1 case Serving => 2
      case ServerCounted => 3 case Served => 4 case Replied => 5
    }
  }

  /** The call of a request. `parent` is the parent option that extraction leaves behind. */
  datatype Call = Call(
    metadata: Option<SpanContext>,
    point: ServerPoint,
    thread: ThreadId,
    entry: seq<SpanId>,
    parent: Option<SpanContext>,
    serverSpan: SpanId,
    statusOk: bool)

  datatype Task = RestTask(request: RequestId) | RpcTask(request: RequestId)

  datatype State = State(
    spans: seq<Span>,
    nextTrace: nat,
    stacks: map<ThreadId, seq<SpanId>>,
    running: map<ThreadId, Task>,
    requests: map<RequestId, Request>,
    calls: map<RequestId, Call>,
    gatewayCounter: nat,
    serverCounter: nat)

  // ---------- the runtime context of a thread ----------

  function StackOf(s: State, t: ThreadId): seq<SpanId> {
    if t in s.stacks then s.stacks[t] else []
  }

  function Top(stack: seq<SpanId>): Option<SpanId> {
    if stack == [] then None else Some(stack[|stack| - 1])
  }

  /** Closing a scope: the library detaches by token. Contexts above the token are dropped with
      it, and a token that is not attached changes nothing. */
  function Detach(stack: seq<SpanId>, token: SpanId): seq<SpanId> {
    if token !in stack then stack
    else if stack[|stack| - 1] == token then stack[..|stack| - 1]
    else Detach(stack[..|stack| - 1], token)
  }

  // ---------- spans ----------

  /** The new span's trace and parent: an explicit valid parent wins, else the thread's current
      span, else the span roots a new trace. */
  function NewSpan(s: State, explicit: Option<SpanContext>, current: Option<SpanId>, kind: SpanKind): Span
    requires current.Some? ==> current.value < |s.spans|
  {
    match explicit
    case Some(context) => Span(context.traceId, Some(context.spanId), kind, Unset)
    case None =>
      match current
      case Some(id) => Span(s.spans[id].traceId, Some(id), kind, Unset)
      case None => Span(s.nextTrace, None, kind, Unset)
  }

  /** Start a span on thread `t` and make it current there. */
  function StartCurrent(s: State, t: ThreadId, explicit: Option<SpanContext>, kind: SpanKind): State
    requires InTable(s, StackOf(s, t))
  {
    var span := NewSpan(s, explicit, Top(StackOf(s, t)), kind);
    s.(spans := s.spans + [span],
       nextTrace := if span.parent.None? then s.nextTrace + 1 else s.nextTrace,
       stacks := s.stacks[t := StackOf(s, t) + [|s.spans|]])
  }

  predicate InTable(s: State, stack: seq<SpanId>) {
    forall i | 0 <= i < |stack| :: stack[i] < |s.spans|
  }

  // ---------- steps ----------

  datatype Step =
    | EnterRest(request: RequestId, thread: ThreadId, operation: Operation)
    | CountRest(request: RequestId)
    | StartClientSpan(request: RequestId)
    | Inject(request: RequestId)
    | Send(request: RequestId)
    | Answer(request: RequestId, statusOk: bool)
    | CloseClientScope(request: RequestId)
    | CloseRestScope(request: RequestId)
    | Extract(request: RequestId, thread: ThreadId, header: bool)
    | StartServerSpan(request: RequestId)
    | CountRpc(request: RequestId)
    | Serve(request: RequestId, statusOk: bool)
    | CloseServerScope(request: RequestId)

  predicate AtGateway(s: State, r: RequestId, point: GatewayPoint) {
    r in s.requests && s.requests[r].point == point
  }

  predicate AtServer(s: State, r: RequestId, point: ServerPoint) {
    r in s.calls && s.calls[r].point == point
  }

  /** A success status comes from a call that was served successfully. A failure may be the
      server's, or the transport's at any time: before, while or after the call is served. */
  predicate Enabled(s: State, step: Step) {
    match step
    case EnterRest(r, t, _) => r !in s.requests && t !in s.running && InTable(s, StackOf(s, t))
    case CountRest(r) => AtGateway(s, r, Entered)
    case StartClientSpan(r) => AtGateway(s, r, Counted) && InTable(s, StackOf(s, s.requests[r].thread))
    case Inject(r) => AtGateway(s, r, Calling) && InTable(s, StackOf(s, s.requests[r].thread))
    case Send(r) => AtGateway(s, r, Injected)
    case Answer(r, ok) =>
      && AtGateway(s, r, Waiting)
      && s.requests[r].clientSpan < |s.spans|
      && (ok ==> AtServer(s, r, Replied) && s.calls[r].statusOk)
    case CloseClientScope(r) => AtGateway(s, r, Answered)
    case CloseRestScope(r) => AtGateway(s, r, Unwound)
    case Extract(r, t, _) => AtServer(s, r, InFlight) && t !in s.running
    case StartServerSpan(r) => AtServer(s, r, Extracted) && InTable(s, StackOf(s, s.calls[r].thread))
    case CountRpc(r) => AtServer(s, r, Serving)
    case Serve(r, _) => AtServer(s, r, ServerCounted) && s.calls[r].serverSpan < |s.spans|
    case CloseServerScope(r) => AtServer(s, r, Served)
  }

  function WithRequest(s: State, r: RequestId, request: Request): State {
    s.(requests := s.requests[r := request])
  }

  function WithCall(s: State, r: RequestId, call: Call): State {
    s.(calls := s.calls[r := call])
  }

  function CloseScope(s: State, t: ThreadId, token: SpanId): State {
    s.(stacks := s.stacks[t := Detach(StackOf(s, t), token)])
  }

  function SetStatus(s: State, id: SpanId, status: StatusCode): State
    requires id < |s.spans|
  {
    s.(spans := s.spans[id := s.spans[id].(status := status)])
  }

  function InjectedContext(s: State, current: Option<SpanId>): Option<SpanContext>
    requires current.Some? ==> current.value < |s.spans|
  {
    match current
    case Some(id) => Some(SpanContext(s.spans[id].traceId, id))
    case None => None
  }

  function Apply(s: State, step: Step): State
    requires Enabled(s, step)
  {
    match step
    case EnterRest(r, t, operation) =>
      var request := Request(operation, t, StackOf(s, t), Entered, |s.spans|, 0, None, false);
      WithRequest(StartCurrent(s, t, None, Internal), r, request).(running := s.running[t := RestTask(r)])
    case CountRest(r) =>
      WithRequest(s, r, s.requests[r].(point := Counted)).(gatewayCounter := s.gatewayCounter + 1)
    case StartClientSpan(r) =>
      WithRequest(StartCurrent(s, s.requests[r].thread, None, Client), r,
                  s.requests[r].(point := Calling, clientSpan := |s.spans|))
    case Inject(r) =>
      var context := InjectedContext(s, Top(StackOf(s, s.requests[r].thread)));
      WithRequest(s, r, s.requests[r].(point := Injected, metadata := context))
    case Send(r) =>
      WithCall(WithRequest(s, r, s.requests[r].(point := Waiting)), r,
               Call(s.requests[r].metadata, InFlight, 0, [], None, 0, false))
    case Answer(r, ok) =>
      WithRequest(SetStatus(s, s.requests[r].clientSpan, if ok then StatusOk else StatusError), r,
                  s.requests[r].(point := Answered, statusOk := ok))
    case CloseClientScope(r) =>
      WithRequest(CloseScope(s, s.requests[r].thread, s.requests[r].clientSpan), r, s.requests[r].(point := Unwound))
    case CloseRestScope(r) =>
      WithRequest(CloseScope(s, s.requests[r].thread, s.requests[r].restSpan), r, s.requests[r].(point := Finished))
        .(running := s.running - {s.requests[r].thread})
    case Extract(r, t, header) =>
      WithCall(s, r, s.calls[r].(point := Extracted, thread := t, entry := StackOf(s, t),
                                 parent := if header then s.calls[r].metadata else None))
        .(running := s.running[t := RpcTask(r)])
    case StartServerSpan(r) =>
      WithCall(StartCurrent(s, s.calls[r].thread, s.calls[r].parent, Server), r,
               s.calls[r].(point := Serving, serverSpan := |s.spans|))
    case CountRpc(r) =>
      WithCall(s, r, s.calls[r].(point := ServerCounted)).(serverCounter := s.serverCounter + 1)
    case Serve(r, ok) =>
      WithCall(if ok then SetStatus(s, s.calls[r].serverSpan, StatusOk) else s, r,
               s.calls[r].(point := Served, statusOk := ok))
    case CloseServerScope(r) =>
      WithCall(CloseScope(s, s.calls[r].thread, s.calls[r].serverSpan), r, s.calls[r].(point := Replied))
        .(running := s.running - {s.calls[r].thread})
  }

  /** What a finished handler did: `readUsers` returns whatever arrived, the others throw when
      the service returned no entity. */
  function OutcomeOf(request: Request): Outcome {
    if request.statusOk || request.operation.ReadUsers? then Returned else Thrown
  }

  // ---------- runs ----------

  ghost predicate ValidRun(s: State, steps: seq<Step>)
    decreases |steps|
  {
    steps == [] || (Enabled(s, steps[0]) && ValidRun(Apply(s, steps[0]), steps[1..]))
  }

  ghost function Final(s: State, steps: seq<Step>): State
    requires ValidRun(s, steps)
    decreases |steps|
  {
    if steps == [] then s else Final(Apply(s, steps[0]), steps[1..])
  }
}
