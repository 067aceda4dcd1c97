/** The user manager's rpc handlers (`user_manager/src/UserService.cc`) over either store. */
module UserService {
  import opened Decimal
  import opened Users
  import opened InMemoryStore
  import opened DatabaseStore

  /** The two implementations of `IUserDao`. */
  datatype Dao = Memory(memory: InMemoryUserDao) | Database(database: OdbUserDao)

  /** The value that a store holds. */
  datatype DaoState =
    | MemoryDao(users: UserMap, nextId: UInt64)
    | DatabaseDao(table: Table, lastId: nat)

  predicate StateOk(d: DaoState) {
    match d
    case MemoryDao(users, _) => KeyedById(users)
    case DatabaseDao(table, lastId) => TableOk(table, lastId)
  }

  function Objects(dao: Dao): set<object> {
    match dao
    case Memory(memory) => {memory, memory.ids}
    case Database(database) => {database}
  }

  function StateOf(dao: Dao): DaoState
    reads Objects(dao)
  {
    match dao
    case Memory(memory) => MemoryDao(memory.users, memory.ids.Next(USER_KEY))
    case Database(database) => DatabaseDao(database.table, database.lastId)
  }

  function StoredUsers(d: DaoState): set<User> {
    match d
    case MemoryDao(users, _) => users.Values
    case DatabaseDao(table, _) => AllUsers(table)
  }

  /** The ids under which a store holds users. */
  function StoredIds(d: DaoState): set<UInt64> {
    match d
    case MemoryDao(users, _) => users.Keys
    case DatabaseDao(table, _) => table.Keys
  }

  function Lookup(d: DaoState, id: UInt64): DaoResult {
    match d
    case MemoryDao(users, _) => if id in users then Returned(users[id]) else OutOfRange
    case DatabaseDao(table, _) => Found(table, id)
  }

  /** The id a create assigns, if it gets that far. */
  function NewId(d: DaoState, event: InsertEvent): nat {
    match d
    case MemoryDao(_, nextId) => nextId
    case DatabaseDao(_, lastId) => AssignedId(lastId, event)
  }

  function AfterDaoCreate(d: DaoState, user: User, event: InsertEvent): (r: (DaoState, DaoResult))
    requires StateOk(d)
    ensures StateOk(r.0)
  {
    match d
    case MemoryDao(users, nextId) =>
      var users' := Inserted(users, user.(id := nextId));
      (MemoryDao(users', (nextId + 1) % UINT64_LIMIT), Returned(users'[nextId]))
    case DatabaseDao(table, lastId) =>
      var (table', lastId', result) := AfterCreate(table, lastId, user, event);
      (DatabaseDao(table', lastId'), result)
  }

  method DaoGetUsers(dao: Dao) returns (collection: seq<User>)
    requires StateOk(StateOf(dao))
    ensures multiset(collection) == multiset(StoredUsers(StateOf(dao)))
  {
    match dao {
      case Memory(memory) => collection := memory.GetUsers();
      case Database(database) => collection := database.GetUsers();
    }
  }

  method DaoGetUserById(dao: Dao, id: UInt64) returns (r: DaoResult)
    requires StateOk(StateOf(dao))
    ensures r == Lookup(StateOf(dao), id)
  {
    match dao {
      case Memory(memory) =>
        r := memory.GetUserById(id);
        if r.Returned? {
          StoredWithId(memory.users, r.user);
        }
      case Database(database) => r := database.GetUserById(id);
    }
  }

  method DaoCreateUser(dao: Dao, user: User, event: InsertEvent) returns (r: DaoResult)
    requires StateOk(StateOf(dao))
    modifies Objects(dao)
    ensures (StateOf(dao), r) == AfterDaoCreate(old(StateOf(dao)), user, event)
  {
    match dao {
      case Memory(memory) =>
        var created := memory.CreateUser(user);
        r := Returned(created);
      case Database(database) =>
        r := database.CreateUser(user, event);
    }
  }

  // ---------- rpc handlers ----------

  /** A handler that leaves by an exception fails its call, and so does one that dereferences a
      null handle. */
  datatype RpcReply<+T> = Reply(value: T) | Exception | Crash

  function ReplyOf(r: DaoResult): RpcReply<UserResponse> {
    match r
    case Returned(user) => Reply(ResponseOf(user))
    case OutOfRange => Exception
    case NullPointer | NullDereference => Crash
  }

  function Responses(users: seq<User>): (r: seq<UserResponse>)
    ensures |r| == |users|
    ensures forall i | 0 <= i < |users| :: r[i] == ResponseOf(users[i])
  {
    seq(|users|, i requires 0 <= i < |users| => ResponseOf(users[i]))
  }

  class ServerWriter {
    var written: seq<UserResponse>

    constructor ()
      ensures written == []
    {
      written := [];
    }

    method Write(response: UserResponse)
      modifies this
      ensures written == old(written) + [response]
    {
      written := written + [response];
    }
  }

  class UserServiceImpl {
    const dao: Dao
    var requestCounter: nat

    predicate Valid()
      reads Objects(dao)
    {
      StateOk(StateOf(dao))
    }

    constructor (dao: Dao)
      requires StateOk(StateOf(dao))
      ensures this.dao == dao && requestCounter == 0 && Valid()
    {
      this.dao := dao;
      requestCounter := 0;
    }

    /** Streams one response per stored user; `snapshot` is the store's list at that moment. */
    method ReadUsers(writer: ServerWriter) returns (ghost snapshot: seq<User>)
      requires Valid()
      modifies this, writer
      ensures requestCounter == old(requestCounter) + 1
      ensures multiset(snapshot) == multiset(StoredUsers(StateOf(dao)))
      ensures writer.written == old(writer.written) + Responses(snapshot)
    {
      requestCounter := requestCounter + 1;
      var users := DaoGetUsers(dao);
      ghost var before := writer.written;
      for i := 0 to |users|
        invariant requestCounter == old(requestCounter) + 1
        invariant writer.written == before + Responses(users)[..i]
      {
        var response := ConvertUserToResponse(users[i], BLANK_RESPONSE);
        writer.Write(response);
      }
      snapshot := users;
    }

    method ReadUser(id: UInt64) returns (reply: RpcReply<UserResponse>)
      requires Valid()
      modifies this
      ensures requestCounter == old(requestCounter) + 1
      ensures reply == ReplyOf(Lookup(StateOf(dao), id))
      ensures reply.Reply? <==> id in StoredIds(StateOf(dao))
    {
      requestCounter := requestCounter + 1;
      var user := DaoGetUserById(dao, id);
      reply := Answer(user);
    }

    method CreateUser(request: UserRequest, now: ClockTime, event: InsertEvent) returns (reply: RpcReply<UserResponse>)
      requires Valid()
      modifies this, Objects(dao)
      ensures Valid()
      ensures requestCounter == old(requestCounter) + 1
      ensures var user := User(0, request.name, request.password, now);
        var (d, r) := AfterDaoCreate(old(StateOf(dao)), user, event);
        StateOf(dao) == d && reply == ReplyOf(r)
    {
      requestCounter := requestCounter + 1;
      var user := ConvertRequestToUser(request, BLANK_USER, now);
      var newUser := DaoCreateUser(dao, user, event);
      reply := Answer(newUser);
    }

    method Answer(result: DaoResult) returns (reply: RpcReply<UserResponse>)
      ensures reply == ReplyOf(result)
    {
      match result {
        case Returned(user) =>
          var response := ConvertUserToResponse(user, BLANK_RESPONSE);
          reply := Reply(response);
        case OutOfRange =>
          reply := Exception;
        case NullPointer | NullDereference =>
          reply := Crash;
      }
    }
  }
}
