/** The user entity and its messages, with the conversions of `common/src/mappers.cc` and
    `user_manager/src/mappers.cc`. Each conversion sets fields of an existing target one by one
    and leaves the others as they are. */
module Users {
  import opened Decimal
  import opened TimeMapping

  /** What `second_clock::universal_time()` can return. */
  type ClockTime = t: Ptime | t % TICKS_PER_SECOND == 0

  datatype User = User(id: UInt64, name: string, password: string, created: Ptime)
  datatype UserRequest = UserRequest(name: string, password: string)
  datatype UserResponse = UserResponse(id: UInt64, name: string, created: Timestamp)
  datatype UserDto = UserDto(id: UInt64, name: string, password: string, created: Ptime)

  /** How a data-access call ends. */
  datatype DaoResult =
    | Returned(user: User)
    | OutOfRange        // the exception of `unordered_map::at`
    | NullPointer       // a null handle after a database exception
    | NullDereference   // `*` on the empty result of a query

  /** Default-constructed objects. */
  const BLANK_USER := User(0, "", "", EPOCH)
  const BLANK_RESPONSE := UserResponse(0, "", Timestamp(0, 0))
  const BLANK_DTO := UserDto(0, "", "", EPOCH)

  function ResponseOf(user: User): UserResponse {
    UserResponse(user.id, user.name, WriteTimestamp(user.created))
  }

  function DtoOf(response: UserResponse): UserDto {
    BLANK_DTO.(id := response.id, name := response.name, created := ReadTimestamp(response.created))
  }

  /** What the gateway shows of a user: no password, and the time after its trip through the message. */
  function Shown(user: User): UserDto {
    DtoOf(ResponseOf(user))
  }

  /** The second that `t` lies in, counted toward the epoch. */
  predicate SecondOf(t: Ptime, seconds: int) {
    && Abs(t) - TICKS_PER_SECOND < TICKS_PER_SECOND * Abs(seconds) <= Abs(t)
    && (t >= 0 ==> seconds >= 0)
    && (t <= 0 ==> seconds <= 0)
  }

  /** Both fields count from the epoch: the seconds toward it, and all the nanoseconds in 32 bits. */
  method ConvertTime(from: Ptime, target: Timestamp) returns (to: Timestamp)
    ensures SecondOf(from, to.seconds)
    ensures -0x8000_0000 <= to.nanos < 0x8000_0000
    ensures (to.nanos - 1000 * from) % 0x1_0000_0000 == 0
  {
    to := target;
    var diff := from - EPOCH;
    to := to.(seconds := TruncDiv(diff, TICKS_PER_SECOND));
    to := to.(nanos := Wrap32(1000 * diff));
    WrapCongruent(1000 * diff);
  }

  lemma WrapCongruent(x: int)
    ensures -0x8000_0000 <= Wrap32(x) < 0x8000_0000
    ensures (Wrap32(x) - x) % 0x1_0000_0000 == 0
  {
  }

  lemma SecondUnique(t: Ptime, seconds: int)
    requires SecondOf(t, seconds)
    ensures seconds == TruncDiv(t, TICKS_PER_SECOND)
  {
    var q := TruncDiv(t, TICKS_PER_SECOND);
    assert Abs(t) - TICKS_PER_SECOND < TICKS_PER_SECOND * Abs(q) <= Abs(t);
    assert Abs(seconds) == Abs(q);
  }

  lemma WrapUnique(x: int, low: int)
    requires -0x8000_0000 <= low < 0x8000_0000 && (low - x) % 0x1_0000_0000 == 0
    ensures low == Wrap32(x)
  {
    var k := (low - x) / 0x1_0000_0000;
    assert x == low + 0x1_0000_0000 * -k;
    Wrap32Unique(x, low, -k);
  }

  /** Those conditions leave one message. */
  lemma WrittenUnique(t: Ptime, ts: Timestamp)
    requires SecondOf(t, ts.seconds)
    requires -0x8000_0000 <= ts.nanos < 0x8000_0000
    requires (ts.nanos - 1000 * t) % 0x1_0000_0000 == 0
    ensures ts == WriteTimestamp(t)
  {
    hide SecondOf, TruncDiv, Wrap32;
    SecondUnique(t, ts.seconds);
    WrapUnique(1000 * t, ts.nanos);
  }

  method ConvertUserToResponse(from: User, target: UserResponse) returns (to: UserResponse)
    ensures to == ResponseOf(from)
  {
    to := target;
    to := to.(id := from.id);
    to := to.(name := from.name);
    var created := ConvertTime(from.created, to.created);
    WrittenUnique(from.created, created);
    to := to.(created := created);
  }

  method ConvertRequestToUser(from: UserRequest, target: User, now: ClockTime) returns (to: User)
    ensures to == target.(name := from.name, password := from.password, created := now)
  {
    to := target;
    to := to.(name := from.name);
    to := to.(password := from.password);
    to := to.(created := now);
  }

  method ConvertResponseToDto(from: UserResponse, target: UserDto) returns (to: UserDto)
    ensures to == DtoOf(from).(password := target.password)
  {
    to := target;
    to := to.(id := from.id);
    to := to.(name := from.name);
    to := to.(created := ReadTimestamp(from.created));
  }

  method ConvertDtoToRequest(from: UserDto, target: UserRequest) returns (to: UserRequest)
    ensures to == UserRequest(from.name, from.password)
  {
    to := target;
    to := to.(name := from.name);
    to := to.(password := from.password);
  }

  /** Through the messages as written, a user always keeps id and name, never shows a password,
      and keeps its time exactly at the seconds that survive the narrowing. */
  lemma ShownKeeps(user: User)
    requires CountFits(user.created)
    ensures Shown(user) == UserDto(user.id, user.name, "", RoundTrip(user.created))
    ensures Shown(user).created == user.created <==> ExactMagnitude(Abs(user.created))
  {
    RoundTripExactIff(user.created);
  }

  /** With the intended time mapping every whole-second time survives the millisecond store and
      the message exactly. */
  lemma IntendedHopsExact(t: ClockTime)
    ensures MsTruncate(t) == t
    ensures ReadTimestamp(Normalised(MsTruncate(t))) == t
  {
    assert t % 1000 == 0 by {
      assert t == 1000 * (1000 * (t / TICKS_PER_SECOND));
    }
    MsTruncateTowardEpoch(t);
    NormalisedIsExact(t, t);
  }
}
