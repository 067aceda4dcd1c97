# Verification of the user demo's own logic

The repository is a two-process demo: a REST gateway that calls a gRPC user manager, with
logging, tracing and metrics around both. Most of it configures libraries. This project models,
in Dafny 4.11, the four pieces of logic that are its own, and proves what they promise on every
input or every run. `dafny verify dfyconfig.toml` checks all of it.

**The JSON log printer** (`LogPrinter`, `LogReader`, `LogRoundTrip`, `LogLayouts`, `Decimal`). The
printer is modelled as it is written: a loop over the attributes of a record with a `first` flag,
a registry that selects attributes by name and type, bare numbers, everything else through
`std::quoted`, two layouts. `LogReader` is an independent reader for JSON text after RFC 8259
(sections 2 to 7), with nested values, numbers and all escapes. One master lemma says what the
reader makes of any printed record followed by any text; unique decoding of log files,
injectivity, and the exact condition under which a record is standard JSON follow from it.

**Span and context propagation** (`TracerCommons`, `Propagation`, `PropagationInvariant`,
`PropagationTheorems`, `PropagationRuns`).
Any number of requests on any number of threads, one step at a time in any order: enter the REST
handler, count, start the client span and make it current, inject, send, extract at the server,
start the server span, count, serve, answer, close the scopes. Closing a scope detaches by token
as the tracing library does (contexts above the token would be dropped with it), so LIFO order is
a theorem and not built in. Calls may fail before, while or after they are served, headers may be
missing, and threads may have contexts current before the first request. Safety holds in every
reachable state; that the states are there to be reached is shown by running a request from entry
to end out of any of them. `TracerCommons` has the macros and carriers as imperative code on one
thread, proved against the protocol's functions.

**Timestamp arithmetic** (`TimeMapping`). A time is a signed number of microseconds from the
epoch. C++ division is written out as truncation and the narrowing to `int32` as two's complement
wrap. The code writes the *total* nanoseconds into the 32-bit field
(`common/src/mappers.cc:48`), where `google.protobuf.Timestamp` asks for the rest below a second.
The project keeps the code as it is, states exactly which times survive it (the seconds that are
0, 3054701 or, without a fraction, -3054701 modulo 2^23), bounds the error by limits that are met,
and proves that the mapping the format intends loses nothing.

**The user store and the way from POST to GET** (`Users`, `InMemoryStore`, `DatabaseStore`,
`StoreRefinement`, `UserService`, `Gateway`, `DtoJson`, `EndToEnd`). Both stores, the rpc handlers,
the gateway's client with its stream loop and the REST handlers are classes whose methods are
proved against functions on values; runs of requests are handled by the classes and follow those
functions step by step. The database store reads the row back by the low 16 bits of the new id
(`user_manager/src/OdbUserDao.cc:48`), so it behaves like the abstract store exactly as long as
every id it assigns is below 65536; past that a POST answers with another user's row, or
dereferences an empty result. A failed insert assigns no id and is a refused create of the
abstract store. The in-memory store behaves like the abstract one exactly as long as no create
draws an id it already holds.

Where a name and the code disagree the code is followed: the macro
`INJECT_GRPC_CTX_AND_START_SPAN` starts the span, makes it current and only then injects, and the
parent theorem rests on that order.

## Model

| member | source | states |
|---|---|---|
| `LogPrinter.ToJsonNode` | common/src/observability.cc:123-136 | appends the decimal number for a number, the quoted characters or time text, one of six quoted severity names, and nothing when the value is not of the registered type |
| `LogPrinter.PutAttribute` | common/src/observability.cc:144-150 | one registered attribute: separator unless first, indent, quoted name, colon, value |
| `LogPrinter.JsonAttrsFormatter` | common/src/observability.cc:138-156 | the loop with its `first` flag appends exactly the joined text of the registered attributes, in order, whatever the registry and layout |
| `LogPrinter.FormatterRegistry.RegisterDefaults` | common/src/observability.cc:170-175 | adds exactly the six default names to the registry, each under its type, and leaves every other entry as it was |
| `LogRoundTrip.RecordRead` | common/src/observability.cc:124-156 | for both dialects, both layouts and any text behind: a printed record reads back as exactly its entries and that text, or is rejected, according to what the dialect allows |
| `LogRoundTrip.RecordShows` | common/src/observability.cc:124-156 | from the attributes themselves: what is read of a printed record is one member per registered attribute, in order, with its name, its number by value or its text by characters; a failed extraction reads as empty |
| `LogRoundTrip.RecordSelfDelimiting` | common/src/observability.cc:138-156 | equal texts begin with the same projection and continue equally: records are self-delimiting and the printer is injective on projections, failed extractions included |
| `LogRoundTrip.LogDecodes` | common/src/observability.cc:138-156 | a file of any printed records, layouts mixed, decodes to exactly their projections |
| `LogRoundTrip.LogInjective` | common/src/observability.cc:138-156 | equal files hold the same number of records with the same projections |
| `LogRoundTrip.StandardAcceptsIff` | common/src/observability.cc:126-153 | RFC 8259 accepts the record iff every registered attribute extracts and neither names nor quoted values hold characters below U+0020 |
| `LogLayouts.LayoutsAgree` | common/src/observability.cc:118-156 | removing white space outside string literals makes the two layouts the same text, and the compact one is that text and a line break |
| `LogLayouts.AttributeSpelled` | common/src/observability.cc:118-149 | the two texts of one attribute, the formatted one behind a tab and with a blank after the colon |
| `LogLayouts.NeighboursSpelled` | common/src/observability.cc:144-146 | neighbours have a comma between them, and a line break in the formatted layout |
| `LogLayouts.BracesSpelled` | common/src/observability.cc:139-155 | the braces around them, on lines of their own in the formatted layout, and the line break that ends the record |
| `Decimal.ValueOfDigits` | common/src/observability.cc:128-129 | the decimal text of a number determines it |
| `Decimal.DigitsByTens` | common/src/observability.cc:128-129 | the text is in base ten: one more place multiplies by ten |
| `Decimal.Strtoull` | gateway/src/controllers.cc:54 | the loop reads a text of digits as its value, saturating at the largest uint64 |
| `TracerCommons.RuntimeContext.DetachToken` | common/include/notshell/common/observability/tracer_commons.h:43 | the library's loop behind the end of a scope: removes the topmost context of the token and all above it, or nothing if it is not attached |
| `TracerCommons.Tracer.StartSpan` | common/include/notshell/common/observability/tracer_commons.h:35-41 | one new span; an explicit parent wins over the current span, and without either it roots a new trace |
| `TracerCommons.CallMetadata.Set` | common/src/observability.cc:262-265 | adds one metadata entry |
| `TracerCommons.CallMetadata.Get` | common/src/observability.cc:270-278 | the first value under the key, or none |
| `TracerCommons.StartSpanAndScope` | common/include/notshell/common/observability/tracer_commons.h:15-43 | on tracer and thread context, exactly the protocol's start of a current span |
| `TracerCommons.InjectGrpcCtxAndStartSpan` | common/include/notshell/common/observability/tracer_commons.h:45-49 | the metadata gets the ids of the new client span itself, because it is current by then |
| `TracerCommons.ExtractGrpcCtxAndStartSpan` | common/include/notshell/common/observability/tracer_commons.h:51-54 | the server span's parent is the first trace context in the metadata, whatever other entries are there, or the thread's current one without any |
| `TracerCommons.HandleRest` | gateway/src/controllers.cc:65-76 | a REST handler with its call leaves the thread's contexts as they were, by return and by throw, and puts the status on the client span |
| `PropagationInvariant.StartKeepsSpans` | common/include/notshell/common/observability/tracer_commons.h:35-43 | starting a span with an explicit or the current parent keeps the table a forest with one trace per tree |
| `PropagationInvariant.StepKeeps` | common/include/notshell/common/observability/tracer_commons.h:15-54 | every step keeps the tree, the stacks, the metadata and the counters in order |
| `PropagationInvariant.RunKeeps` | common/include/notshell/common/observability/tracer_commons.h:15-54 | so does every run |
| `PropagationTheorems.ContextPropagated` | gateway/src/services.cc:57-64 | in every reachable state a server span that received its metadata is a child of its own request's client span, that one of the REST span, all in one trace |
| `PropagationTheorems.HeaderCarriesParent` | common/include/notshell/common/observability/tracer_commons.h:28-33 | extraction leaves a parent exactly when the header arrives |
| `PropagationTheorems.RequestsKeepApart` | common/include/notshell/common/observability/tracer_commons.h:45-54 | different requests never share a REST, client or server span, with or without received metadata |
| `PropagationTheorems.SpanForest` | common/include/notshell/common/observability/tracer_commons.h:35-43 | no span is its own ancestor, and two spans share a trace iff they share a root |
| `PropagationTheorems.RequestsHaveOwnTraces` | gateway/src/controllers.cc:43-76 | requests that began without a current context have different traces |
| `PropagationTheorems.RestHandlerBalanced` | gateway/src/controllers.cc:43-76 | over any run from entry on, the handler's thread has its entry contexts with the open scopes nested on top, and exactly the entry contexts when the handler ends, by return or throw |
| `PropagationTheorems.RpcHandlerBalanced` | user_manager/src/UserService.cc:55-71 | the same for an rpc handler, also when it leaves by an exception |
| `PropagationTheorems.ScopesCloseInOrder` | common/include/notshell/common/observability/tracer_commons.h:43 | whichever scope closes, its context is the current one and it alone is removed |
| `PropagationTheorems.HandlersProgress` | gateway/src/services.cc:57-79 | in every reachable state each handler under way has its next step enabled |
| `PropagationTheorems.CountersConserved` | user_manager/src/UserService.cc:34-87 | the gateway counter is the number of handlers past their counting line; the server's is that less the requests not, or never, counted at the server |
| `PropagationTheorems.OutcomeIsTrue` | gateway/src/services.cc:64-78 | the client span's status is the call's, a throw happens iff it is an error and the operation is not the list, and a success was really served |
| `PropagationRuns.AskedIsAnswered` | gateway/src/controllers.cc:43-76 | over any run from its entry on, a request has the operation, thread and entry contexts it came in with; once answered it throws iff its client span failed and that operation is not the list |
| `PropagationRuns.AnswerDecides` | gateway/src/services.cc:64-78 | the status a call is answered with fixes, over any run, the client span's status and whether the handler throws |
| `PropagationRuns.ThreadFreeIff` | gateway/src/controllers.cc:43-76 | in every reachable state a thread takes a new request or an arrived call iff no handler is under way on it: handlers that end by return or throw give their thread back |
| `PropagationRuns.RequestRunsThrough` | common/include/notshell/common/observability/tracer_commons.h:15-54 | from every reachable state with two free threads a request can run from entry to end, served well or not, answered with either status, with or without its header; exactly three spans, two counts and one outcome are left, contexts and threads as before |
| `TimeMapping.MillisRetraction` | common/src/mappers.cc:27-40 | milliseconds to time to milliseconds is the identity |
| `TimeMapping.MsTruncateTowardEpoch` | common/src/mappers.cc:27-40 | time to milliseconds and back moves toward the epoch by less than a millisecond, is idempotent, and is exact iff the time is whole milliseconds |
| `TimeMapping.MillisMonotone` | common/src/mappers.cc:27-40 | both directions preserve order |
| `TimeMapping.SetValue` | common/include/notshell/common/mappers/odb/odb_pgsql_mappers.h:23-33 | null decodes to the epoch, any other image to the aligned time with that millisecond count |
| `TimeMapping.SetImage` | common/include/notshell/common/mappers/odb/odb_pgsql_mappers.h:35-41 | never null; the image is the number of whole milliseconds from the epoch |
| `TimeMapping.NormalisedIsExact` | common/src/mappers.cc:43-55 | intended mapping: well-formed, identity on every tick before and after 1970, order preserving both ways |
| `TimeMapping.WholeSecondDrift` | common/src/mappers.cc:43-55 | the drift of a whole second as written depends only on 1953125 times the second modulo 2^23 |
| `TimeMapping.WholeSecondDriftShape` | common/src/mappers.cc:43-55 | that drift has period 2^23 s, is at most 2147483 µs, and is zero iff the residue is 0, 1 or -1, solved for the second |
| `TimeMapping.RoundTripExactIff` | common/src/mappers.cc:43-55 | any time of either sign survives the code as written iff its seconds are among the named ones |
| `TimeMapping.RoundTripErrorBounds` | common/src/mappers.cc:43-55 | the error lies in [-3147482, 2147483] µs from 1970 on and in the mirrored interval before |
| `TimeMapping.RoundTripErrorBoundsTight` | common/src/mappers.cc:43-55 | two times that meet the bounds |
| `TimeMapping.WritesNormalisedIff` | common/src/mappers.cc:43-49 | the code writes the intended message iff the whole seconds are a multiple of 2^23 and no fraction lies before the epoch |
| `Users.ConvertTime` | common/src/mappers.cc:43-49 | the seconds are the second the time lies in, counted toward the epoch; the nanos are the 32-bit value congruent to the total nanoseconds |
| `Users.WrittenUnique` | common/src/mappers.cc:43-49 | no other message meets those conditions |
| `Users.ConvertUserToResponse` | user_manager/src/mappers.cc:10-14 | id, name and time of the response |
| `Users.ConvertRequestToUser` | user_manager/src/mappers.cc:17-22 | name, password and clock time; the id is left as it was |
| `Users.ConvertResponseToDto` | common/src/mappers.cc:58-62 | id, name and time of the DTO; the password is left as it was |
| `Users.ConvertDtoToRequest` | common/src/mappers.cc:65-68 | name and password of the request |
| `Users.ShownKeeps` | common/src/mappers.cc:43-62 | id and name always survive the messages, the time iff its seconds survive the narrowing |
| `Users.IntendedHopsExact` | user_manager/src/mappers.cc:10-22 | with the intended time mapping a whole-second time survives store and message exactly |
| `InMemoryStore.IdSequences.GetNextId` | common/src/services.cc:11-15 | post-increment per key, absent keys start at 0, modulo 2^64, other keys untouched |
| `InMemoryStore.InMemoryUserDao.constructor` | user_manager/src/InMemoryUserDao.cc:9-31 | three users under the next three ids |
| `InMemoryStore.InMemoryUserDao.GetUsers` | user_manager/src/InMemoryUserDao.cc:33-39 | the list's multiset is the stored users |
| `InMemoryStore.InMemoryUserDao.GetUserById` | user_manager/src/InMemoryUserDao.cc:41-43 | returns iff the id is a key, then a stored user who has that id; otherwise the exception |
| `InMemoryStore.InMemoryUserDao.CreateUser` | user_manager/src/InMemoryUserDao.cc:45-49 | inserts under the next id unless the key exists, and returns what is stored there |
| `InMemoryStore.RunKeepsWorld` | user_manager/src/InMemoryUserDao.cc:25-48 | any number of stores on one sequence, any run: each store's keys are exactly the ids it drew, each its user's id |
| `InMemoryStore.CreateStoresIff` | user_manager/src/InMemoryUserDao.cc:45-49 | a create stores the posted user under a new key iff its store has not drawn that id before modulo 2^64; else nothing changes |
| `InMemoryStore.BelowLimit` | common/src/services.cc:11-15 | below 2^64 draws every create adds exactly its entry, keys are below the next id, and stores share no key |
| `InMemoryStore.AtLimitCreateIsLost` | common/src/services.cc:13-15 | the draw after the 2^64-th repeats the first id, and the first store loses the posted user |
| `InMemoryStore.DrawsReached` | common/src/services.cc:11-15 | one new store and creates in it make a run with any number of draws from three on, the first by that store |
| `InMemoryStore.LimitIsMet` | common/src/services.cc:13-15 | so a run of exactly 2^64 draws exists after which a create changes nothing |
| `InMemoryStore.Perform` | user_manager/src/InMemoryUserDao.cc:9-49 | on stores that share one sequence object, opening a store or creating in one is the world's step: the contents agree and the next id stays the number of draws modulo 2^64 |
| `InMemoryStore.Replay` | user_manager/src/InMemoryUserDao.cc:9-49 | so along every run the objects hold what the world holds |
| `DatabaseStore.OdbUserDao.Persist` | user_manager/src/OdbUserDao.cc:46-50 | a new row under an increasing id with the time as image, or an exception and no row |
| `DatabaseStore.OdbUserDao.GetUserById` | user_manager/src/OdbUserDao.cc:33-42 | the loaded row; a missing row is a null dereference |
| `DatabaseStore.OdbUserDao.GetUsers` | user_manager/src/OdbUserDao.cc:18-31 | the list's multiset is the stored rows |
| `DatabaseStore.OdbUserDao.CreateUser` | user_manager/src/OdbUserDao.cc:44-59 | insert, narrow the id to 16 bits, read back; a null handle after a database exception |
| `DatabaseStore.CreateReturnsNewRowIff` | user_manager/src/OdbUserDao.cc:48-52 | the new row comes back iff its id is below 65536; past that the row of the low half, if any |
| `DatabaseStore.CreateKeepsRows` | user_manager/src/OdbUserDao.cc:44-53 | a create never changes a row that is there |
| `StoreRefinement.MemoryRefinesIff` | user_manager/src/InMemoryUserDao.cc:33-49 | on every run that ends with a list, with any number of draws, callers of the in-memory store see exactly the abstract store, ids renamed to handles, iff no create draws an id the store holds |
| `StoreRefinement.MemoryRefines` | user_manager/src/InMemoryUserDao.cc:33-49 | so they do on every run below 2^64 draws |
| `StoreRefinement.PerformInMemory` | user_manager/src/InMemoryUserDao.cc:33-49 | on the class, each operation has the effect and shows the result of the step in those runs |
| `StoreRefinement.TableRefinesIff` | user_manager/src/OdbUserDao.cc:18-59 | on every run, with skipped ids and failed inserts, callers of the database store see exactly the abstract store with millisecond times and the failed creates refused, iff every id assigned to a row is below 65536 |
| `StoreRefinement.PerformInTable` | user_manager/src/OdbUserDao.cc:18-59 | on the class, each operation has the effect and shows the result of the step in those runs |
| `StoreRefinement.StoresAgreeIff` | user_manager/src/OdbUserDao.cc:18-59 | while no id repeats and the ids fit, callers can tell the two stores apart iff some insert fails or some posted time is not whole milliseconds |
| `StoreRefinement.FreshMemoryRelated` | user_manager/src/InMemoryUserDao.cc:9-31 | a new in-memory store starts as the abstract store of its three users |
| `UserService.UserServiceImpl.ReadUsers` | user_manager/src/UserService.cc:32-53 | counts once and streams one response per stored user |
| `UserService.UserServiceImpl.ReadUser` | user_manager/src/UserService.cc:55-71 | counts once, and replies with the stored user iff the id is a key of the store |
| `UserService.UserServiceImpl.CreateUser` | user_manager/src/UserService.cc:85-101 | counts once and answers with what the store returned for the posted name, password and clock time |
| `Gateway.GrpcUserService.ReadUsers` | gateway/src/services.cc:28-55 | the result is the conversion of a prefix of the server's snapshot in order, as long as what was delivered, also on failure; the whole of it iff the stream was not cut |
| `Gateway.GrpcUserService.ReadUser` | gateway/src/services.cc:57-79 | the converted response iff the call gets through both ways and the id is a key of the store, else nothing |
| `Gateway.GrpcUserService.CreateUser` | gateway/src/services.cc:81-105 | the same for a create, with its effect on the store |
| `Gateway.UserController.ReadUsers` | gateway/src/controllers.cc:43-48 | counts once and hands the list through, cut or not |
| `Gateway.UserController.ReadUser` | gateway/src/controllers.cc:50-63 | counts once; the user the path names iff the call gets through and the id is a key of the store, and the not-found exception in all other cases |
| `Gateway.UserController.CreateUser` | gateway/src/controllers.cc:65-76 | counts once; the created user, or the invalid-user exception |
| `EndToEnd.RequestsKeep` | gateway/src/controllers.cc:43-76 | no run of requests, POSTs among them, changes or removes a stored user |
| `EndToEnd.ReadAfterCreate` | gateway/src/services.cc:57-105 | for both stores and any id: on any run with a POST in it that answered, a GET of that user at the end answers exactly the same unless the network fails it |
| `EndToEnd.ListAfterCreate` | gateway/src/services.cc:28-105 | and a list at the end that arrives whole shows that user |
| `EndToEnd.ReadsSeeWrites` | gateway/src/controllers.cc:43-76 | the same of the history of answers alone: after an answered POST every later GET of that id and every later whole list in the run shows that user |
| `EndToEnd.Handle` | gateway/src/controllers.cc:43-76 | one request through controller, client, rpc handler and store: the store, the answer and both counters are those of the run's step |
| `EndToEnd.HandleAll` | gateway/src/controllers.cc:43-76 | so along any run of requests; the gateway counts each, the server those that reach it |
| `EndToEnd.GetExactly` | gateway/src/controllers.cc:50-63 | a GET answers iff the call gets through and the path's number, capped at the largest uint64, is a key of the map or table, then with that id, the stored name and time; else it throws not found |
| `EndToEnd.MemoryPostExactly` | user_manager/src/InMemoryUserDao.cc:45-49 | an in-memory POST answers iff its call gets through both ways, and stores the posted user under the next id iff it reaches the server and the id is free |
| `EndToEnd.PostAnswersPosted` | user_manager/src/UserService.cc:85-101 | when the new id serves, the posted user is stored under it and the answer has the new id, the posted name, no password and the drifted time |
| `EndToEnd.PostedTimeExactIff` | common/src/mappers.cc:43-62 | that time is the time of the create iff its second survives the narrowing |
| `EndToEnd.DatabasePostExactly` | user_manager/src/OdbUserDao.cc:44-59 | when a database POST answers, when it stores a row although it does not answer, what that row holds, and that the answer names the new id iff it is below 65536 |
| `EndToEnd.PostComesOutByGet` | gateway/src/services.cc:57-105 | on any run, a POST whose id serves and a GET of that id at the end: the same id, the posted name, no password, the drifted time; and the posted password is what is stored |
| `EndToEnd.PathOfId` | gateway/src/controllers.cc:54 | the path built from an id leads back to that id |
| `EndToEnd.JsonInJsonOut` | common/include/notshell/common/model/dto/UserDto.h:23-35 | the same from JSON body to JSON body: the body's name comes out with id and time and nothing else, and the body's own name and password are stored |
| `DtoJson.UsersDto.ToJson` | common/include/notshell/common/http_helper.h:19-27 | the loop writes one object per user in order |
| `DtoJson.UsersDto.FromJson` | common/include/notshell/common/http_helper.h:28-40 | whatever the collection held, it ends with the items up to the first unreadable one; an object reads as one item, anything else is refused |
| `DtoJson.ReadDtoIff` | common/include/notshell/common/model/dto/UserDto.h:30-35 | a node reads as a user iff its name and password members are strings, and the user has exactly these two and the rest as constructed; which error otherwise |
| `DtoJson.ReadAllIff` | common/include/notshell/common/http_helper.h:28-40 | reading succeeds iff every node has its two strings; what is read is one user per node up to the first without them, in order, with the node's own name and password |
| `DtoJson.WriteHidesPasswords` | common/include/notshell/common/model/dto/UserDto.h:23-28 | names in order, and nothing written depends on a password |
| `DtoJson.WrittenReadsOnlyIfEmpty` | common/include/notshell/common/model/dto/UserDto.h:23-35 | what was written reads back iff it is empty |

## Left out

- Start-up of logger, tracer and meter, sinks, exporters, file rotation and the plain-text log format: library configuration; the printer is modelled at the text it emits.
- Command line, YAML and environment configuration: straight lookups.
- Character encodings in log text: characters are not interpreted, so UTF-8 validity is not part of standard acceptance; the reader turns a surrogate escape into the replacement character.
- Boost's calendar text for times, special time values and the overflow of 64-bit tick counts: texts are parameters, ticks are unbounded integers and the timestamp lemmas require that the nanosecond count fits 64 bits.
- The propagator's header encoding: an injected context is an abstract value that extraction returns, an absent header means no parent. Span and trace ids are taken to be fresh.
- Span attributes, span end times and log events on spans: they carry no property of their own.
- gRPC, HTTP and threads as real I/O: the propagation protocol is a state machine whose steps are the handlers' lines, a call is sent, served and answered, a stream is a sequence that may be cut. Across threads the stacks and the call metadata are therefore fields of a state; `TracerCommons` has them as objects updated in place, for one thread.
- Data races on the id map and the in-memory map: each store operation is one atomic step.
- SQL, the PostgreSQL wire format, transactions, and reads that fail with a database exception: the table is a finite map with an increasing id source whose inserts may fail.
- What a process does after dereferencing an empty query result or a null handle: the call counts as failed and the stored data stay.
- User, message and DTO objects behind shared pointers are values: the code copies them at every boundary, so no aliasing is modelled.
- The number of users that `ReadUsers` logs, and a failing `Write` on a stream the client has left.
