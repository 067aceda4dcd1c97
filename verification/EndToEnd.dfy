/** What goes in by POST comes out by GET, over any run of requests. */
module EndToEnd {
  import opened Decimal
  import opened TimeMapping
  import opened Users
  import opened InMemoryStore
  import opened DatabaseStore
  import opened UserService
  import opened Gateway
  import DtoJson

  /** The route lets only digits through as the id of a path. */
  type PathText = s: string | s != "" && AllDigits(s) witness "0"

  /** A REST request together with what the network, the clock and the database do meanwhile. */
  datatype Request =
    | Post(dto: UserDto, net: Transport, now: ClockTime, event: InsertEvent)
    | GetOne(userId: PathText, net: Transport)
    | GetAll(net: Transport)

  datatype Answer = One(user: Http<UserDto>) | Many(users: seq<UserDto>)

  /** Only a POST touches the store. */
  function AfterRequest(d: DaoState, request: Request): (d': DaoState)
    requires StateOk(d)
    ensures StateOk(d')
  {
    match request
    case Post(dto, net, now, event) => AfterPost(d, dto, net, now, event).0
    case GetOne(_, _) => d
    case GetAll(_) => d
  }

  function AfterRequests(d: DaoState, requests: seq<Request>): (d': DaoState)
    requires StateOk(d)
    ensures StateOk(d')
    decreases |requests|
  {
    if requests == [] then d else AfterRequests(AfterRequest(d, requests[0]), requests[1..])
  }

  function PostResult(d: DaoState, post: Request): Http<UserDto>
    requires StateOk(d) && post.Post?
  {
    OrThrow(AfterPost(d, post.dto, post.net, post.now, post.event).1, "User is invalid!")
  }

  function GetResult(d: DaoState, userId: PathText, net: Transport): Http<UserDto> {
    OrThrow(Received(ReplyOf(Lookup(d, PathId(userId))), net), "User not found!")
  }

  /** A list shows what arrived of some listing of the store. */
  ghost predicate Lists(d: DaoState, net: Transport, users: seq<UserDto>) {
    if net.reaches then
      exists snapshot: seq<User> ::
        multiset(snapshot) == multiset(StoredUsers(d)) && users == ShownAll(snapshot[..Arrived(|snapshot|, net)])
    else users == []
  }

  ghost predicate Answers(d: DaoState, request: Request, answer: Answer)
    requires StateOk(d)
  {
    match request
    case Post(_, _, _, _) => answer == One(PostResult(d, request))
    case GetOne(userId, net) => answer == One(GetResult(d, userId, net))
    case GetAll(net) => answer.Many? && Lists(d, net, answer.users)
  }

  /** The answers to a run of requests. */
  ghost predicate History(d: DaoState, requests: seq<Request>, answers: seq<Answer>)
    requires StateOk(d)
    decreases |requests|
  {
    if requests == [] then answers == []
    else
      && answers != []
      && Answers(d, requests[0], answers[0])
      && History(AfterRequest(d, requests[0]), requests[1..], answers[1..])
  }

  // ---------- the objects follow ----------

  /** The id sequence and store behind a controller. */
  function StoreOf(controller: UserController): DaoState
    reads Objects(controller.userService.server.dao)
  {
    StateOf(controller.userService.server.dao)
  }

  /** A request handled by the controller, its client, the rpc handler and the store. */
  method Handle(controller: UserController, request: Request) returns (answer: Answer)
    requires controller.userService.server.Valid()
    modifies controller, controller.userService.server, Objects(controller.userService.server.dao)
    ensures controller.userService.server.Valid()
    ensures StoreOf(controller) == AfterRequest(old(StoreOf(controller)), request)
    ensures Answers(old(StoreOf(controller)), request, answer)
    ensures controller.requestCounter == old(controller.requestCounter) + 1
    ensures controller.userService.server.requestCounter
         == old(controller.userService.server.requestCounter) + if request.net.reaches then 1 else 0
  {
    match request {
      case Post(dto, net, now, event) =>
        var user := controller.CreateUser(dto, net, now, event);
        answer := One(user);
      case GetOne(userId, net) =>
        var user := controller.ReadUser(userId, net);
        answer := One(user);
      case GetAll(net) =>
        var users, snapshot := controller.ReadUsers(net);
        answer := Many(users);
    }
  }

  function Reaching(requests: seq<Request>): nat {
    if requests == [] then 0 else (if requests[0].net.reaches then 1 else 0) + Reaching(requests[1..])
  }

  /** Any run of requests: the store, the answers and both counters are those of the run. */
  method HandleAll(controller: UserController, requests: seq<Request>) returns (answers: seq<Answer>)
    requires controller.userService.server.Valid()
    modifies controller, controller.userService.server, Objects(controller.userService.server.dao)
    ensures controller.userService.server.Valid()
    ensures StoreOf(controller) == AfterRequests(old(StoreOf(controller)), requests)
    ensures History(old(StoreOf(controller)), requests, answers)
    ensures controller.requestCounter == old(controller.requestCounter) + |requests|
    ensures controller.userService.server.requestCounter == old(controller.userService.server.requestCounter) + Reaching(requests)
    decreases |requests|
  {
    answers := [];
    if requests != [] {
      var first := Handle(controller, requests[0]);
      var others := HandleAll(controller, requests[1..]);
      answers := [first] + others;
    }
  }

  // ---------- one request ----------

  /** The path segment that a client builds from an id leads back to that id. */
  lemma PathOfId(id: UInt64)
    ensures Digits(id) != "" && AllDigits(Digits(id)) && PathId(Digits(id)) == id
  {
    ValueOfDigits(id);
  }

  /** A GET answers with a user exactly when the call gets through and the id is a key of the
      store, and then with that user's id, name and time; otherwise it throws. A path number that
      does not fit 64 bits means the largest id. */
  lemma GetExactly(d: DaoState, userId: PathText, net: Transport)
    requires StateOk(d)
    ensures var r := GetResult(d, userId, net);
      var id := if Value(userId) < 0x1_0000_0000_0000_0000 then Value(userId) else 0xFFFF_FFFF_FFFF_FFFF;
      && (d.MemoryDao? ==>
            (r.Entity? <==> net.reaches && net.answered && id in d.users)
            && (r.Entity? ==> r.value == UserDto(id, d.users[id].name, "", RoundTrip(d.users[id].created))))
      && (d.DatabaseDao? ==>
            (r.Entity? <==> net.reaches && net.answered && id in d.table)
            && (r.Entity? ==> r.value == UserDto(id, d.table[id].name, "", RoundTrip(MillisToPtime(d.table[id].image)))))
      && (!r.Entity? ==> r == Thrown("User not found!"))
  {
  }

  /** In-memory: a POST answers exactly when its call gets through both ways. It stores the posted
      user under the next id, if that is free, and draws the id as soon as the call reaches the
      server, whether or not the answer comes back. */
  lemma MemoryPostExactly(users: UserMap, nextId: UInt64, post: Request)
    requires KeyedById(users) && post.Post?
    ensures var r := PostResult(MemoryDao(users, nextId), post); var d := AfterRequest(MemoryDao(users, nextId), post);
      && (r.Entity? <==> post.net.reaches && post.net.answered)
      && (!r.Entity? ==> r == Thrown("User is invalid!"))
      && (!post.net.reaches ==> d == MemoryDao(users, nextId))
      && (post.net.reaches ==> d == MemoryDao(
            if nextId in users then users else users[nextId := User(nextId, post.dto.name, post.dto.password, post.now)],
            (nextId + 1) % 0x1_0000_0000_0000_0000))
  {
  }

  /** Database: a POST answers exactly when the row it reads back exists, and with the new user's
      id exactly when that id fits 16 bits. It stores a row exactly when the call reaches the
      server and the insert works, whether or not it answers. */
  lemma DatabasePostExactly(table: Table, lastId: nat, post: Request)
    requires TableOk(table, lastId) && post.Post?
    ensures var r := PostResult(DatabaseDao(table, lastId), post); var d := AfterRequest(DatabaseDao(table, lastId), post);
      var id := lastId + 1 + post.event.gap;
      var works := post.net.reaches && !post.event.fails && id < 0x8000_0000_0000_0000;
      && (r.Entity? <==> works && post.net.answered && (id < 65536 || id % 65536 in table))
      && (r.Entity? ==> r.value.id == id % 65536)
      && (r.Entity? ==> (r.value.id == id <==> id < 65536))
      && (!r.Entity? ==> r == Thrown("User is invalid!"))
      && d.DatabaseDao?
      && (d.table.Keys == table.Keys + if works then {id} else {})
      && (works ==> Lookup(d, id) == Returned(User(id, post.dto.name, post.dto.password, post.now)))
      && (forall k :: k in table ==> d.table[k] == table[k])
  {
    ClockTimeStored(post.now);
  }

  /** A clock time survives the store. */
  lemma ClockTimeStored(now: ClockTime)
    ensures MillisToPtime(PtimeToMillis(now)) == now
  {
    IntendedHopsExact(now);
  }

  /** No request ever changes or removes a stored user. */
  lemma RequestKeeps(d: DaoState, request: Request, id: UInt64)
    requires StateOk(d) && Lookup(d, id).Returned?
    ensures Lookup(AfterRequest(d, request), id) == Lookup(d, id)
  {
    if request.Post? && request.net.reaches && d.DatabaseDao? {
      var user := User(0, request.dto.name, request.dto.password, request.now);
      CreateKeepsRows(d.table, d.lastId, user, request.event, id);
    }
  }

  lemma {:induction false} RequestsKeep(d: DaoState, requests: seq<Request>, id: UInt64)
    requires StateOk(d) && Lookup(d, id).Returned?
    ensures Lookup(AfterRequests(d, requests), id) == Lookup(d, id)
    decreases |requests|
  {
    if requests != [] {
      RequestKeeps(d, requests[0], id);
      RequestsKeep(AfterRequest(d, requests[0]), requests[1..], id);
    }
  }

  lemma {:induction false} RunSplit(d: DaoState, before: seq<Request>, between: seq<Request>)
    requires StateOk(d)
    ensures AfterRequests(d, before + between) == AfterRequests(AfterRequests(d, before), between)
    decreases |before|
  {
    if before == [] {
      assert before + between == between;
    } else {
      assert (before + between)[1..] == before[1..] + between;
      RunSplit(AfterRequest(d, before[0]), before[1..], between);
    }
  }

  /** The store after a run in which a POST was handled. */
  lemma RunWithPost(d: DaoState, before: seq<Request>, post: Request, between: seq<Request>)
    requires StateOk(d)
    ensures AfterRequests(d, before + [post] + between)
         == AfterRequests(AfterRequest(AfterRequests(d, before), post), between)
  {
    hide AfterRequest;
    RunSplit(d, before + [post], between);
    RunSplit(d, before, [post]);
    assert [post][1..] == [];
    assert AfterRequests(AfterRequests(d, before), [post]) == AfterRequest(AfterRequests(d, before), post);
  }

  // ---------- runs ----------

  /** An answer shows a user that is stored under the id it names. */
  predicate StoredAs(d: DaoState, shown: UserDto) {
    Lookup(d, shown.id).Returned? && Shown(Lookup(d, shown.id).user) == shown
  }

  /** What a successful POST answers is stored. */
  lemma PostAnswersStored(d: DaoState, post: Request)
    requires StateOk(d) && post.Post?
    ensures PostResult(d, post).Entity? ==> StoredAs(AfterRequest(d, post), PostResult(d, post).value)
  {
  }

  /** And it stays stored, over any run that the POST is part of. */
  lemma PostedStays(d: DaoState, before: seq<Request>, post: Request, between: seq<Request>, shown: UserDto)
    requires StateOk(d) && post.Post? && PostResult(AfterRequests(d, before), post) == Entity(shown)
    ensures StoredAs(AfterRequests(d, before + [post] + between), shown)
  {
    hide AfterRequest, PostResult;
    RunWithPost(d, before, post, between);
    PostAnswersStored(AfterRequests(d, before), post);
    RequestsKeep(AfterRequest(AfterRequests(d, before), post), between, shown.id);
  }

  /** A GET of the path that a client builds from an id. */
  function GetById(d: DaoState, id: UInt64, net: Transport): Http<UserDto> {
    GetResult(d, Digits(id), net)
  }

  /** Read after create, for both stores and whatever the id: on every run with a POST that
      answered with a user, a GET of that user's path at the end answers exactly the same, unless
      the network fails that GET; the requests before and in between make no difference. */
  lemma ReadAfterCreate(d: DaoState, before: seq<Request>, post: Request, between: seq<Request>, net: Transport, shown: UserDto)
    requires StateOk(d) && post.Post?
    ensures PostResult(AfterRequests(d, before), post) == Entity(shown) ==>
      GetById(AfterRequests(d, before + [post] + between), shown.id, net)
      == if net.reaches && net.answered then Entity(shown) else Thrown("User not found!")
  {
    if PostResult(AfterRequests(d, before), post) == Entity(shown) {
      PostedStays(d, before, post, between, shown);
      PathOfId(shown.id);
    }
  }

  lemma StoredIsListed(d: DaoState, id: UInt64)
    requires StateOk(d) && Lookup(d, id).Returned?
    ensures Lookup(d, id).user in StoredUsers(d)
  {
  }

  /** The stream of a list is not cut. */
  predicate ArrivesWhole(d: DaoState, net: Transport) {
    net.reaches && net.delivered >= |StoredUsers(d)|
  }

  /** A list that arrives whole shows every user that is stored. */
  lemma WholeListShows(d: DaoState, net: Transport, users: seq<UserDto>, shown: UserDto)
    requires StateOk(d) && StoredAs(d, shown)
    requires Lists(d, net, users) && ArrivesWhole(d, net)
    ensures shown in users
  {
    var snapshot: seq<User> :| multiset(snapshot) == multiset(StoredUsers(d)) && users == ShownAll(snapshot[..Arrived(|snapshot|, net)]);
    assert |snapshot| == |multiset(snapshot)| == |StoredUsers(d)|;
    assert snapshot[..|snapshot|] == snapshot;
    StoredIsListed(d, shown.id);
    assert Lookup(d, shown.id).user in multiset(snapshot);
    var i :| 0 <= i < |snapshot| && snapshot[i] == Lookup(d, shown.id).user;
    assert users[i] == shown;
  }

  /** On every run with a POST that answered with a user, a list of all users at the end shows
      that user if it arrives whole, in whatever order the store lists. */
  lemma ListAfterCreate(d: DaoState, before: seq<Request>, post: Request, between: seq<Request>,
                        net: Transport, users: seq<UserDto>, shown: UserDto)
    requires StateOk(d) && post.Post?
    ensures var later := AfterRequests(d, before + [post] + between);
      PostResult(AfterRequests(d, before), post) == Entity(shown) && Lists(later, net, users) && ArrivesWhole(later, net) ==>
        shown in users
  {
    var later := AfterRequests(d, before + [post] + between);
    if PostResult(AfterRequests(d, before), post) == Entity(shown) && Lists(later, net, users) && ArrivesWhole(later, net) {
      PostedStays(d, before, post, between, shown);
      WholeListShows(later, net, users, shown);
    }
  }

  lemma {:induction false} HistoryAt(d: DaoState, requests: seq<Request>, answers: seq<Answer>, i: nat)
    requires StateOk(d) && History(d, requests, answers) && i < |requests|
    ensures |answers| == |requests| && Answers(AfterRequests(d, requests[..i]), requests[i], answers[i])
    decreases |requests|
  {
    if i == 0 {
      HistoryLength(d, requests, answers);
    } else {
      HistoryAt(AfterRequest(d, requests[0]), requests[1..], answers[1..], i - 1);
      assert requests[..i][1..] == requests[1..][..i - 1];
    }
  }

  lemma {:induction false} HistoryLength(d: DaoState, requests: seq<Request>, answers: seq<Answer>)
    requires StateOk(d) && History(d, requests, answers)
    ensures |answers| == |requests|
    decreases |requests|
  {
    if requests != [] {
      HistoryLength(AfterRequest(d, requests[0]), requests[1..], answers[1..]);
    }
  }

  /** The same said of the answers alone, for the history of any run: once a POST has been
      answered with a user, every later GET of that id is answered with exactly that user, or
      thrown because the network failed it, and every later list that arrives whole shows it. */
  lemma ReadsSeeWrites(d: DaoState, requests: seq<Request>, answers: seq<Answer>, i: nat, j: nat, shown: UserDto)
    requires StateOk(d) && History(d, requests, answers) && i < j < |requests| == |answers|
    requires requests[i].Post? && answers[i] == One(Entity(shown))
    ensures requests[j].GetOne? && PathId(requests[j].userId) == shown.id ==>
      answers[j] == One(if requests[j].net.reaches && requests[j].net.answered then Entity(shown) else Thrown("User not found!"))
    ensures requests[j].GetAll? && ArrivesWhole(AfterRequests(d, requests[..j]), requests[j].net) ==>
      answers[j].Many? && shown in answers[j].users
  {
    hide AfterRequests, History, Lists;
    HistoryAt(d, requests, answers, i);
    HistoryAt(d, requests, answers, j);
    var (before, between) := (requests[..i], requests[i + 1..j]);
    assert requests[..j] == before + [requests[i]] + between;
    PostedStays(d, before, requests[i], between, shown);
    if requests[j].GetAll? && ArrivesWhole(AfterRequests(d, requests[..j]), requests[j].net) {
      WholeListShows(AfterRequests(d, requests[..j]), requests[j].net, answers[j].users, shown);
    }
  }

  // ---------- what was posted ----------

  /** The id is new to the store and, for the database, fits the 16 bits of the read-back. */
  predicate IdServes(d: DaoState, event: InsertEvent) {
    match d
    case MemoryDao(users, nextId) => nextId !in users
    case DatabaseDao(_, _) => NewId(d, event) < UINT16_LIMIT
  }

  /** When the new id serves, a POST that answers has stored the posted user under it, and the
      answer is about that user: the new id, the posted name, and the time of the create after
      one trip through the message. */
  lemma PostAnswersPosted(d: DaoState, post: Request)
    requires StateOk(d) && post.Post? && IdServes(d, post.event)
    ensures var (dto, id) := (post.dto, NewId(d, post.event));
      PostResult(d, post).Entity? ==>
        && PostResult(d, post).value == UserDto(id, dto.name, "", RoundTrip(post.now))
        && Lookup(AfterRequest(d, post), id) == Returned(User(id, dto.name, dto.password, post.now))
  {
    ClockTimeStored(post.now);
  }

  /** The time that a POST answers with is the time of the create exactly at the seconds that
      survive the narrowing. */
  lemma PostedTimeExactIff(d: DaoState, post: Request)
    requires StateOk(d) && post.Post? && IdServes(d, post.event) && CountFits(post.now)
    ensures PostResult(d, post).Entity? ==>
      (PostResult(d, post).value.created == post.now <==> ExactMagnitude(Abs(post.now)))
  {
    PostAnswersPosted(d, post);
    RoundTripExactIff(post.now);
  }

  /** Everything that is kept and seen of one user, from POST to any later GET. */
  lemma PostComesOutByGet(d: DaoState, before: seq<Request>, post: Request, between: seq<Request>, net: Transport)
    requires StateOk(d) && post.Post? && IdServes(AfterRequests(d, before), post.event) && net.reaches && net.answered
    ensures var id := NewId(AfterRequests(d, before), post.event); var later := AfterRequests(d, before + [post] + between);
      PostResult(AfterRequests(d, before), post).Entity? ==>
        && GetById(later, id, net) == Entity(UserDto(id, post.dto.name, "", RoundTrip(post.now)))
        && Lookup(later, id) == Returned(User(id, post.dto.name, post.dto.password, post.now))
  {
    hide AfterRequest, PostResult, IdServes;
    var (d1, dto) := (AfterRequests(d, before), post.dto);
    PostAnswersPosted(d1, post);
    if PostResult(d1, post).Entity? {
      ReadAfterCreate(d, before, post, between, net, UserDto(NewId(d1, post.event), dto.name, "", RoundTrip(post.now)));
      RunWithPost(d, before, post, between);
      RequestsKeep(AfterRequest(d1, post), between, NewId(d1, post.event));
    }
  }

  /** The JSON of an answer is about the user that a body posted. */
  predicate ShowsPosted(answer: Http<UserDto>, body: DtoJson.Json, id: UInt64, now: ClockTime, timeText: Ptime -> string) {
    answer.Entity? &&
    var json := DtoJson.WriteDto(answer.value, timeText);
    && DtoJson.StringAt(json, "name") == DtoJson.StringAt(body, "name")
    && json.members.Keys == {"id", "name", "created"}
    && json.members["id"] == DtoJson.JsonNumber(id)
    && json.members["created"] == DtoJson.JsonString(timeText(RoundTrip(now)))
  }

  /** The same from JSON to JSON: the name that a POST body carries is the name that the JSON of
      any later GET of the new user shows, next to its id and without a password; and what is
      stored under that id has the body's own name and password. */
  lemma JsonInJsonOut(d: DaoState, before: seq<Request>, body: DtoJson.Json, post: Request, between: seq<Request>,
                      net: Transport, timeText: Ptime -> string)
    requires StateOk(d) && post.Post? && IdServes(AfterRequests(d, before), post.event) && net.reaches && net.answered
    requires DtoJson.ReadDto(body) == DtoJson.Success(post.dto)
    ensures var id := NewId(AfterRequests(d, before), post.event); var later := AfterRequests(d, before + [post] + between);
      PostResult(AfterRequests(d, before), post).Entity? ==>
        && ShowsPosted(GetById(later, id, net), body, id, post.now, timeText)
        && Lookup(later, id).Returned?
        && DtoJson.Carries(body, Lookup(later, id).user.name, Lookup(later, id).user.password)
  {
    PostComesOutByGet(d, before, post, between, net);
    DtoJson.ReadDtoIff(body, post.dto);
  }
}
