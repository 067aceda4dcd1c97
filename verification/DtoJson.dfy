/** The JSON form of users: `UserDto.h` and the array methods of `http_helper.h`. Parsing and
    dumping of text belong to the JSON library; here JSON is a value. */
module DtoJson {
  import opened TimeMapping
  import opened Users

  datatype Json =
    | JsonNull
    | JsonBool(b: bool)
    | JsonNumber(n: int)
    | JsonString(s: string)
    | JsonArray(items: seq<Json>)
    | JsonObject(members: map<string, Json>)

  /** What the library's accessors raise. */
  datatype JsonError = TypeError | MissingKey | BadFormat

  datatype Result<+T> = Success(value: T) | Failure(error: JsonError) {
    predicate IsFailure() {
      Failure?
    }
    function PropagateFailure<U>(): Result<U>
      requires Failure?
    {
      Failure(error)
    }
    function Extract(): T
      requires Success?
    {
      value
    }
  }

  /** `j.at(key).get_to(string)`. */
  function StringAt(j: Json, key: string): Result<string> {
    match j
    case JsonObject(members) =>
      if key !in members then Failure(MissingKey)
      else if members[key].JsonString? then Success(members[key].s)
      else Failure(TypeError)
    case _ => Failure(TypeError)
  }

  /** Only name and password are read; the rest of the object is as constructed. */
  function ReadDto(j: Json): Result<UserDto> {
    var name :- StringAt(j, "name");
    var password :- StringAt(j, "password");
    Success(BLANK_DTO.(name := name, password := password))
  }

  /** A node is a user with this name and password. */
  predicate Carries(j: Json, name: string, password: string) {
    && j.JsonObject?
    && "name" in j.members && j.members["name"] == JsonString(name)
    && "password" in j.members && j.members["password"] == JsonString(password)
  }

  /** A node reads as a user exactly when both its members are there as strings; the user has
      exactly those, and id and time as constructed. Otherwise the name is looked at first. */
  lemma ReadDtoIff(j: Json, dto: UserDto)
    ensures ReadDto(j) == Success(dto) <==> Carries(j, dto.name, dto.password) && dto.id == 0 && dto.created == EPOCH
    ensures ReadDto(j) == Failure(MissingKey) <==>
      j.JsonObject? && ("name" !in j.members || (j.members["name"].JsonString? && "password" !in j.members))
    ensures ReadDto(j) != Failure(BadFormat)
  {
  }

  /** How a time is written is up to the time library: `timeText`. The password is not written. */
  function WriteDto(dto: UserDto, timeText: Ptime -> string): Json {
    JsonObject(map["id" := JsonNumber(dto.id), "name" := JsonString(dto.name), "created" := JsonString(timeText(dto.created))])
  }

  function WriteAll(users: seq<UserDto>, timeText: Ptime -> string): (r: seq<Json>)
    ensures |r| == |users|
    ensures forall i | 0 <= i < |users| :: r[i] == WriteDto(users[i], timeText)
  {
    seq(|users|, i requires 0 <= i < |users| => WriteDto(users[i], timeText))
  }

  /** The items up to the first one that fails, and that failure. */
  function ReadPrefix(nodes: seq<Json>): (seq<UserDto>, Result<()>) {
    if nodes == [] then ([], Success(()))
    else match ReadDto(nodes[0])
      case Failure(error) => ([], Failure(error))
      case Success(dto) => ([dto] + ReadPrefix(nodes[1..]).0, ReadPrefix(nodes[1..]).1)
  }

  class UsersDto {
    var users: seq<UserDto>

    constructor ()
      ensures users == []
    {
      users := [];
    }

    method ToJson(timeText: Ptime -> string) returns (j: Json)
      ensures j == JsonArray(WriteAll(users, timeText))
    {
      var items: seq<Json> := [];
      for i := 0 to |users|
        invariant items == WriteAll(users, timeText)[..i]
      {
        var node := WriteDto(users[i], timeText);
        items := items + [node];
      }
      j := JsonArray(items);
    }

    /** Whatever the collection held before, it ends with the items that could be read. */
    method FromJson(j: Json) returns (r: Result<()>)
      modifies this
      ensures j.JsonArray? ==> users == ReadPrefix(j.items).0 && r == ReadPrefix(j.items).1
      ensures j.JsonObject? ==> users == ReadPrefix([j]).0 && r == ReadPrefix([j]).1
      ensures !j.JsonArray? && !j.JsonObject? ==> users == [] && r == Failure(BadFormat)
    {
      users := [];
      match j {
        case JsonArray(items) =>
          for i := 0 to |items|
            invariant ReadPrefix(items).0 == users + ReadPrefix(items[i..]).0
            invariant ReadPrefix(items[i..]).1 == ReadPrefix(items).1
          {
            ReadPrefixAt(items, i, users);
            r := PopulateNode(items[i]);
            if r.Failure? {
              return;
            }
          }
          assert users + [] == users;
          r := Success(());
        case JsonObject(_) =>
          SingleRead(j);
          r := PopulateNode(j);
        case _ =>
          r := Failure(BadFormat);
      }
    }

    method PopulateNode(node: Json) returns (r: Result<()>)
      modifies this
      ensures match ReadDto(node)
        case Success(dto) => users == old(users) + [dto] && r == Success(())
        case Failure(error) => users == old(users) && r == Failure(error)
    {
      var item := ReadDto(node);
      if item.Failure? {
        return Failure(item.error);
      }
      users := users + [item.value];
      r := Success(());
    }
  }

  /** One turn of the reading loop, with `read` the users so far. */
  lemma ReadPrefixAt(nodes: seq<Json>, i: nat, read: seq<UserDto>)
    requires i < |nodes|
    ensures match ReadDto(nodes[i])
      case Success(dto) =>
        && read + ReadPrefix(nodes[i..]).0 == (read + [dto]) + ReadPrefix(nodes[i + 1..]).0
        && ReadPrefix(nodes[i..]).1 == ReadPrefix(nodes[i + 1..]).1
      case Failure(error) => read + ReadPrefix(nodes[i..]).0 == read && ReadPrefix(nodes[i..]).1 == Failure(error)
  {
    assert nodes[i..][1..] == nodes[i + 1..];
  }

  lemma SingleRead(j: Json)
    ensures match ReadDto(j)
      case Success(dto) => ReadPrefix([j]).0 == [dto] && ReadPrefix([j]).1 == Success(())
      case Failure(error) => ReadPrefix([j]).0 == [] && ReadPrefix([j]).1 == Failure(error)
  {
    assert [j][1..] == [];
  }

  predicate Readable(j: Json) {
    && j.JsonObject?
    && "name" in j.members && j.members["name"].JsonString?
    && "password" in j.members && j.members["password"].JsonString?
  }

  /** Reading succeeds exactly when every node has its two strings. What is read, in any case, is
      one user per node up to the first node without them, in order, with the node's own name and
      password. */
  lemma {:induction false} ReadAllIff(nodes: seq<Json>)
    ensures var (users, r) := ReadPrefix(nodes);
      && (r.Success? <==> forall i | 0 <= i < |nodes| :: Readable(nodes[i]))
      && (r.Success? <==> |users| == |nodes|)
      && |users| <= |nodes|
      && (|users| < |nodes| ==> !Readable(nodes[|users|]))
      && (forall i | 0 <= i < |users| :: Carries(nodes[i], users[i].name, users[i].password))
  {
    if nodes != [] {
      ReadAllIff(nodes[1..]);
      assert nodes == [nodes[0]] + nodes[1..];
      if Readable(nodes[0]) {
        var users := ReadPrefix(nodes).0;
        assert users[1..] == ReadPrefix(nodes[1..]).0;
      }
    }
  }

  /** Written users keep their order, ids and names, and nothing written depends on a password. */
  lemma WriteHidesPasswords(a: seq<UserDto>, b: seq<UserDto>, timeText: Ptime -> string)
    requires |a| == |b| && forall i | 0 <= i < |a| :: a[i] == b[i].(password := a[i].password)
    ensures WriteAll(a, timeText) == WriteAll(b, timeText)
    ensures forall i | 0 <= i < |a| :: StringAt(WriteAll(a, timeText)[i], "name") == Success(a[i].name)
  {
  }

  /** So what was written cannot be read back, unless it is empty. */
  lemma WrittenReadsOnlyIfEmpty(users: seq<UserDto>, timeText: Ptime -> string)
    ensures ReadPrefix(WriteAll(users, timeText)).1.Success? <==> users == []
    ensures users != [] ==> ReadPrefix(WriteAll(users, timeText)).1 == Failure(MissingKey)
  {
    if users != [] {
      assert StringAt(WriteDto(users[0], timeText), "password") == Failure(MissingKey);
    }
  }
}
