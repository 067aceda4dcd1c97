/** The gateway: the rpc client of `gateway/src/services.cc` and the REST handlers of
    `gateway/src/controllers.cc`. */
module Gateway {
  import opened Wrappers
  import opened Decimal
  import opened Users
  import opened DatabaseStore
  import opened UserService

  /** What the network does with one call: whether it reaches the server, how many stream
      messages come back, and whether the final status does. */
  datatype Transport = Transport(reaches: bool, delivered: nat, answered: bool)

  /** The client's view of a unary call: a response only with an ok status. */
  function Received(reply: RpcReply<UserResponse>, net: Transport): Option<UserDto> {
    if net.reaches && net.answered && reply.Reply? then Some(DtoOf(reply.value)) else None
  }

  function ShownAll(users: seq<User>): (r: seq<UserDto>)
    ensures |r| == |users|
    ensures forall i | 0 <= i < |users| :: r[i] == Shown(users[i])
  {
    seq(|users|, i requires 0 <= i < |users| => Shown(users[i]))
  }

  /** How much of a stream arrives. */
  function Arrived(n: nat, net: Transport): (k: nat)
    ensures k <= n
  {
    if !net.reaches then 0 else if net.delivered < n then net.delivered else n
  }

  /** The client's end of the stream: what has arrived and how much of it has been read. */
  class ClientReader {
    const incoming: seq<UserResponse>
    var position: nat

    predicate Valid()
      reads this
    {
      position <= |incoming|
    }

    constructor (incoming: seq<UserResponse>)
      ensures this.incoming == incoming && position == 0 && Valid()
    {
      this.incoming := incoming;
      position := 0;
    }

    method Read(previous: UserResponse) returns (more: bool, message: UserResponse)
      requires Valid()
      modifies this
      ensures Valid()
      ensures more <==> old(position) < |incoming|
      ensures more ==> position == old(position) + 1 && message == incoming[old(position)]
      ensures !more ==> position == old(position) && message == previous
    {
      more := position < |incoming|;
      message := previous;
      if more {
        message := incoming[position];
        position := position + 1;
      }
    }
  }

  class GrpcUserService {
    const server: UserServiceImpl

    constructor (server: UserServiceImpl)
      ensures this.server == server
    {
      this.server := server;
    }

    /** The stub and the network: the messages that will come in, of those the server sends. */
    method OpenStream(net: Transport) returns (reader: ClientReader, statusOk: bool, ghost snapshot: seq<User>)
      requires server.Valid()
      modifies server
      ensures fresh(reader) && reader.Valid() && reader.position == 0
      ensures server.requestCounter == old(server.requestCounter) + if net.reaches then 1 else 0
      ensures if net.reaches then multiset(snapshot) == multiset(StoredUsers(StateOf(server.dao))) else snapshot == []
      ensures reader.incoming == Responses(snapshot[..Arrived(|snapshot|, net)])
      ensures statusOk <==> net.reaches && net.answered && Arrived(|snapshot|, net) == |snapshot|
    {
      snapshot := [];
      var incoming: seq<UserResponse> := [];
      statusOk := false;
      if net.reaches {
        var writer := new ServerWriter();
        snapshot := server.ReadUsers(writer);
        assert writer.written == Responses(snapshot);
        incoming := writer.written[..Arrived(|writer.written|, net)];
        statusOk := net.answered && |incoming| == |writer.written|;
      }
      reader := new ClientReader(incoming);
    }

    /** The list is always the conversion of a prefix of the server's snapshot, in order, even
        when the call fails; it is the whole snapshot exactly when the stream was not cut. */
    method ReadUsers(net: Transport) returns (users: seq<UserDto>, statusOk: bool, ghost snapshot: seq<User>)
      requires server.Valid()
      modifies server
      ensures server.requestCounter == old(server.requestCounter) + if net.reaches then 1 else 0
      ensures if net.reaches then multiset(snapshot) == multiset(StoredUsers(StateOf(server.dao))) else users == [] && snapshot == []
      ensures users == ShownAll(snapshot[..Arrived(|snapshot|, net)])
      ensures net.reaches ==> (users == ShownAll(snapshot) <==> net.delivered >= |snapshot|)
      ensures statusOk <==> net.reaches && net.answered && net.delivered >= |snapshot|
      ensures net.reaches && net.delivered <= |snapshot| ==> |users| == net.delivered
    {
      var reader;
      reader, statusOk, snapshot := OpenStream(net);
      ghost var incoming := reader.incoming;
      users := [];
      var more, userResponse := reader.Read(BLANK_RESPONSE);
      while more
        invariant reader.Valid()
        invariant more ==> reader.position == |users| + 1 && userResponse == incoming[|users|]
        invariant !more ==> reader.position == |users| == |incoming|
        invariant forall i | 0 <= i < |users| :: users[i] == DtoOf(incoming[i])
        decreases |incoming| - |users|, more
        modifies reader
      {
        var userDto := ConvertResponseToDto(userResponse, BLANK_DTO);
        users := users + [userDto];
        more, userResponse := reader.Read(userResponse);
      }
    }

    method ReadUser(id: UInt64, net: Transport) returns (user: Option<UserDto>)
      requires server.Valid()
      modifies server
      ensures server.requestCounter == old(server.requestCounter) + if net.reaches then 1 else 0
      ensures user == Received(ReplyOf(Lookup(StateOf(server.dao), id)), net)
      ensures user.Some? <==> net.reaches && net.answered && id in StoredIds(StateOf(server.dao))
    {
      var reply: RpcReply<UserResponse> := Exception;
      if net.reaches {
        reply := server.ReadUser(id);
      }
      user := Convert(reply, net);
    }

    method CreateUser(user: UserDto, net: Transport, now: ClockTime, event: InsertEvent) returns (created: Option<UserDto>)
      requires server.Valid()
      modifies server, Objects(server.dao)
      ensures server.Valid() && server.requestCounter == old(server.requestCounter) + if net.reaches then 1 else 0
      ensures (StateOf(server.dao), created) == AfterPost(old(StateOf(server.dao)), user, net, now, event)
    {
      var request := ConvertDtoToRequest(user, UserRequest("", ""));
      var reply: RpcReply<UserResponse> := Exception;
      if net.reaches {
        reply := server.CreateUser(request, now, event);
      }
      created := Convert(reply, net);
    }

    method Convert(reply: RpcReply<UserResponse>, net: Transport) returns (user: Option<UserDto>)
      ensures user == Received(reply, net)
    {
      if !net.reaches || !net.answered || !reply.Reply? {
        return None;
      }
      var dto := ConvertResponseToDto(reply.value, BLANK_DTO);
      user := Some(dto);
    }
  }

  /** The store after a create through the client, and what the client gets. */
  function AfterPost(d: DaoState, dto: UserDto, net: Transport, now: ClockTime, event: InsertEvent): (r: (DaoState, Option<UserDto>))
    requires StateOk(d)
    ensures StateOk(r.0)
  {
    if !net.reaches then (d, None)
    else
      var (d', result) := AfterDaoCreate(d, User(0, dto.name, dto.password, now), event);
      (d', Received(ReplyOf(result), net))
  }

  // ---------- REST handlers ----------

  datatype Http<+T> = Entity(value: T) | Thrown(message: string)

  function OrThrow(user: Option<UserDto>, message: string): Http<UserDto> {
    if user.Some? then Entity(user.value) else Thrown(message)
  }

  /** The id that a path parameter of digits names. */
  function PathId(text: string): UInt64
    requires AllDigits(text)
  {
    if Value(text) < UINT64_LIMIT then Value(text) else UINT64_LIMIT - 1
  }

  class UserController {
    const userService: GrpcUserService
    var requestCounter: nat

    constructor (userService: GrpcUserService)
      ensures this.userService == userService && requestCounter == 0
    {
      this.userService := userService;
      requestCounter := 0;
    }

    method ReadUsers(net: Transport) returns (users: seq<UserDto>, ghost snapshot: seq<User>)
      requires userService.server.Valid()
      modifies this, userService.server
      ensures requestCounter == old(requestCounter) + 1
      ensures userService.server.requestCounter == old(userService.server.requestCounter) + if net.reaches then 1 else 0
      ensures if net.reaches then multiset(snapshot) == multiset(StoredUsers(StateOf(userService.server.dao))) else snapshot == []
      ensures users == ShownAll(snapshot[..Arrived(|snapshot|, net)])
      ensures net.reaches && net.delivered <= |snapshot| ==> |users| == net.delivered
      ensures net.reaches ==> (users == ShownAll(snapshot) <==> net.delivered >= |snapshot|)
    {
      requestCounter := requestCounter + 1;
      var statusOk;
      users, statusOk, snapshot := userService.ReadUsers(net);
    }

    /** The route only lets digits through as the id. */
    method ReadUser(userId: string, net: Transport) returns (r: Http<UserDto>)
      requires userId != "" && AllDigits(userId) && userService.server.Valid()
      modifies this, userService.server
      ensures requestCounter == old(requestCounter) + 1
      ensures userService.server.requestCounter == old(userService.server.requestCounter) + if net.reaches then 1 else 0
      ensures r == OrThrow(Received(ReplyOf(Lookup(StateOf(userService.server.dao), PathId(userId))), net), "User not found!")
      ensures r.Entity? <==> net.reaches && net.answered && PathId(userId) in StoredIds(StateOf(userService.server.dao))
      ensures !r.Entity? ==> r == Thrown("User not found!")
    {
      requestCounter := requestCounter + 1;
      var id := Strtoull(userId);
      var user := userService.ReadUser(id, net);
      if user.None? {
        return Thrown("User not found!");
      }
      r := Entity(user.value);
    }

    method CreateUser(userDto: UserDto, net: Transport, now: ClockTime, event: InsertEvent) returns (r: Http<UserDto>)
      requires userService.server.Valid()
      modifies this, userService.server, Objects(userService.server.dao)
      ensures userService.server.Valid() && requestCounter == old(requestCounter) + 1
      ensures userService.server.requestCounter == old(userService.server.requestCounter) + if net.reaches then 1 else 0
      ensures var (d, user) := AfterPost(old(StateOf(userService.server.dao)), userDto, net, now, event);
        StateOf(userService.server.dao) == d && r == OrThrow(user, "User is invalid!")
    {
      requestCounter := requestCounter + 1;
      var user := userService.CreateUser(userDto, net, now, event);
      if user.None? {
        return Thrown("User is invalid!");
      }
      r := Entity(user.value);
    }
  }
}
