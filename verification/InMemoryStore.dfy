/** The in-memory user store of `user_manager/src/InMemoryUserDao.cc` and the id sequences of
    `common/src/services.cc` that its instances share. */
module InMemoryStore {
  import opened Decimal
  import opened Users

  const USER_KEY := "UserEntity"

  type UserMap = map<UInt64, User>

  class IdSequences {
    var sequences: map<string, UInt64>

    constructor ()
      ensures sequences == map[]
    {
      sequences := map[];
    }

    /** The id that the next draw on `key` gives: an absent sequence starts at zero. */
    function Next(key: string): UInt64
      reads this
    {
      if key in sequences then sequences[key] else 0
    }

    method GetNextId(key: string) returns (id: UInt64)
      modifies this
      ensures id == old(Next(key)) && Next(key) == (id + 1) % UINT64_LIMIT
      ensures forall other | other != key :: Next(other) == old(Next(other))
    {
      if key !in sequences {
        sequences := sequences[key := 0];
      }
      id := sequences[key];
      sequences := sequences[key := (id + 1) % UINT64_LIMIT];
    }
  }

  /** `unordered_map::insert`: an existing key keeps its value. */
  function Inserted(users: UserMap, user: User): UserMap {
    if user.id in users then users else users[user.id := user]
  }

  /** The users a new store starts with, when its first draw is `id`. */
  function Seeded(id: UInt64, t1: ClockTime, t2: ClockTime, t3: ClockTime): UserMap {
    Inserted(Inserted(Inserted(map[], User(id, "user1", "password1", t1)),
                      User((id + 1) % UINT64_LIMIT, "user2", "password2", t2)),
             User((id + 2) % UINT64_LIMIT, "user3", "password3", t3))
  }

  /** Every key is its user's id. */
  predicate KeyedById(users: UserMap) {
    forall k :: k in users ==> users[k].id == k
  }

  class InMemoryUserDao {
    const ids: IdSequences
    var users: UserMap

    predicate Valid()
      reads this
    {
      KeyedById(users)
    }

    constructor (ids: IdSequences, t1: ClockTime, t2: ClockTime, t3: ClockTime)
      modifies ids
      ensures Valid() && this.ids == ids
      ensures users == Seeded(old(ids.Next(USER_KEY)), t1, t2, t3)
      ensures ids.Next(USER_KEY) == (old(ids.Next(USER_KEY)) + 3) % UINT64_LIMIT
    {
      this.ids := ids;
      users := map[];
      new;
      var id1 := ids.GetNextId(USER_KEY);
      users := Inserted(users, User(id1, "user1", "password1", t1));
      ThreeDraws(id1);
      var id2 := ids.GetNextId(USER_KEY);
      users := Inserted(users, User(id2, "user2", "password2", t2));
      var id3 := ids.GetNextId(USER_KEY);
      users := Inserted(users, User(id3, "user3", "password3", t3));
      SeededKeys(id1, t1, t2, t3);
    }

    /** All users, each once, in the arbitrary order of the hash map. */
    method GetUsers() returns (collection: seq<User>)
      requires Valid()
      ensures multiset(collection) == multiset(users.Values)
    {
      collection := [];
      var pending := users;
      while pending != map[]
        invariant pending.Keys <= users.Keys && forall k | k in pending :: pending[k] == users[k]
        invariant multiset(collection) + multiset(pending.Values) == multiset(users.Values)
        decreases |pending|
      {
        var k :| k in pending;
        RemoveOne(pending, k);
        collection := collection + [pending[k]];
        pending := pending - {k};
      }
    }

    method GetUserById(id: UInt64) returns (r: DaoResult)
      requires Valid()
      ensures r.Returned? <==> id in users
      ensures r.Returned? ==> r.user in users.Values && r.user.id == id
      ensures !r.Returned? ==> r == OutOfRange
    {
      if id in users {
        r := Returned(users[id]);
      } else {
        r := OutOfRange;
      }
    }

    method CreateUser(user: User) returns (r: User)
      requires Valid()
      modifies this`users, ids
      ensures Valid()
      ensures var id := old(ids.Next(USER_KEY));
        && users == Inserted(old(users), user.(id := id))
        && r == users[id]
      ensures ids.Next(USER_KEY) == (old(ids.Next(USER_KEY)) + 1) % UINT64_LIMIT
    {
      var id := ids.GetNextId(USER_KEY);
      var stored := user.(id := id);
      users := Inserted(users, stored);
      r := users[stored.id];
    }
  }

  lemma ThreeDraws(id: UInt64)
    ensures ((id + 1) % UINT64_LIMIT + 1) % UINT64_LIMIT == (id + 2) % UINT64_LIMIT
    ensures ((id + 2) % UINT64_LIMIT + 1) % UINT64_LIMIT == (id + 3) % UINT64_LIMIT
  {
  }

  lemma SeededKeys(id: UInt64, t1: ClockTime, t2: ClockTime, t3: ClockTime)
    ensures KeyedById(Seeded(id, t1, t2, t3))
    ensures Seeded(id, t1, t2, t3).Keys == {id, (id + 1) % UINT64_LIMIT, (id + 2) % UINT64_LIMIT}
  {
    var u1 := User(id, "user1", "password1", t1);
    var u2 := User((id + 1) % UINT64_LIMIT, "user2", "password2", t2);
    var u3 := User((id + 2) % UINT64_LIMIT, "user3", "password3", t3);
    InsertedKeys(map[], u1);
    InsertedKeys(Inserted(map[], u1), u2);
    InsertedKeys(Inserted(Inserted(map[], u1), u2), u3);
  }

  lemma InsertedKeys(users: UserMap, user: User)
    requires KeyedById(users)
    ensures KeyedById(Inserted(users, user)) && Inserted(users, user).Keys == users.Keys + {user.id}
  {
  }

  lemma RemoveOne(users: UserMap, k: UInt64)
    requires KeyedById(users) && k in users
    ensures |users - {k}| < |users|
    ensures multiset(users.Values) == multiset{users[k]} + multiset((users - {k}).Values)
  {
    var rest := users - {k};
    assert rest.Keys == users.Keys - {k};
    assert users.Values == {users[k]} + rest.Values by {
      forall u | u in users.Values
        ensures u == users[k] || u in rest.Values
      {
        var j :| j in users && users[j] == u;
        if j != k {
          assert j in rest && rest[j] == u;
        }
      }
      forall u | u in rest.Values
        ensures u in users.Values
      {
        var j :| j in rest && rest[j] == u;
        assert users[j] == u;
      }
    }
    assert users[k] !in rest.Values;
  }

  // ---------- several stores on one sequence ----------

  /** Any number of stores that share the sequence: `owners[n]` is the store that made the n-th draw. */
  datatype World = World(owners: seq<nat>, stores: seq<UserMap>)

  datatype WorldStep =
    | NewStore(t1: ClockTime, t2: ClockTime, t3: ClockTime)
    | CreateIn(store: nat, user: User)

  function DrawnId(n: nat): UInt64 {
    n % UINT64_LIMIT
  }

  function ApplyStep(w: World, step: WorldStep): World {
    match step
    case NewStore(t1, t2, t3) =>
      World(w.owners + [|w.stores|, |w.stores|, |w.stores|], w.stores + [Seeded(DrawnId(|w.owners|), t1, t2, t3)])
    case CreateIn(d, user) =>
      if d < |w.stores| then
        World(w.owners + [d], w.stores[d := Inserted(w.stores[d], user.(id := DrawnId(|w.owners|)))])
      else w
  }

  function RunWorld(w: World, steps: seq<WorldStep>): World
    decreases |steps|
  {
    if steps == [] then w else RunWorld(ApplyStep(w, steps[0]), steps[1..])
  }

  const EMPTY_WORLD := World([], [])

  /** The ids that store `d` has drawn. */
  function Drawn(owners: seq<nat>, d: nat): set<UInt64> {
    set n | 0 <= n < |owners| && owners[n] == d :: DrawnId(n)
  }

  predicate WorldOk(w: World) {
    && (forall n | 0 <= n < |w.owners| :: w.owners[n] < |w.stores|)
    && (forall d | 0 <= d < |w.stores| :: KeyedById(w.stores[d]) && w.stores[d].Keys == Drawn(w.owners, d))
  }

  lemma DrawnMore(owners: seq<nat>, e: nat, d: nat)
    ensures Drawn(owners + [e], d) == Drawn(owners, d) + if e == d then {DrawnId(|owners|)} else {}
  {
    var more := owners + [e];
    forall id | id in Drawn(more, d)
      ensures id in Drawn(owners, d) + if e == d then {DrawnId(|owners|)} else {}
    {
      var n :| 0 <= n < |more| && more[n] == d && DrawnId(n) == id;
      assert n < |owners| ==> owners[n] == d;
    }
    forall id | id in Drawn(owners, d)
      ensures id in Drawn(more, d)
    {
      var n :| 0 <= n < |owners| && owners[n] == d && DrawnId(n) == id;
      assert more[n] == d;
    }
    assert more[|owners|] == e;
  }

  lemma NextDrawn(n: nat)
    ensures DrawnId(n + 1) == (DrawnId(n) + 1) % UINT64_LIMIT
    ensures DrawnId(n + 2) == (DrawnId(n) + 2) % UINT64_LIMIT
  {
  }

  lemma DrawnThrice(owners: seq<nat>, e: nat, d: nat)
    ensures var id := DrawnId(|owners|);
      Drawn(owners + [e, e, e], d)
      == Drawn(owners, d) + if e == d then {id, (id + 1) % UINT64_LIMIT, (id + 2) % UINT64_LIMIT} else {}
  {
    assert owners + [e, e, e] == owners + [e] + [e] + [e];
    NextDrawn(|owners|);
    DrawnMore(owners, e, d);
    DrawnMore(owners + [e], e, d);
    DrawnMore(owners + [e] + [e], e, d);
  }

  lemma NewStoreKeepsWorld(w: World, t1: ClockTime, t2: ClockTime, t3: ClockTime)
    requires WorldOk(w)
    ensures WorldOk(ApplyStep(w, NewStore(t1, t2, t3)))
  {
    var m := |w.stores|;
    var w' := ApplyStep(w, NewStore(t1, t2, t3));
    SeededKeys(DrawnId(|w.owners|), t1, t2, t3);
    forall d | 0 <= d <= m
      ensures KeyedById(w'.stores[d]) && w'.stores[d].Keys == Drawn(w'.owners, d)
    {
      DrawnThrice(w.owners, m, d);
      if d == m {
        assert Drawn(w.owners, m) == {};
      }
    }
  }

  lemma CreateKeepsWorld(w: World, e: nat, user: User)
    requires WorldOk(w) && e < |w.stores|
    ensures WorldOk(ApplyStep(w, CreateIn(e, user)))
  {
    var w' := ApplyStep(w, CreateIn(e, user));
    InsertedKeys(w.stores[e], user.(id := DrawnId(|w.owners|)));
    forall d | 0 <= d < |w.stores|
      ensures KeyedById(w'.stores[d]) && w'.stores[d].Keys == Drawn(w'.owners, d)
    {
      DrawnMore(w.owners, e, d);
    }
  }

  lemma StepKeepsWorld(w: World, step: WorldStep)
    requires WorldOk(w)
    ensures WorldOk(ApplyStep(w, step))
  {
    match step
    case NewStore(t1, t2, t3) => NewStoreKeepsWorld(w, t1, t2, t3);
    case CreateIn(d, user) =>
      if d < |w.stores| {
        CreateKeepsWorld(w, d, user);
      }
  }

  /** On every run, the keys of a store are exactly the ids it has drawn, each its user's id. */
  lemma {:induction false} RunKeepsWorld(w: World, steps: seq<WorldStep>)
    requires WorldOk(w)
    ensures WorldOk(RunWorld(w, steps))
    decreases |steps|
  {
    if steps != [] {
      StepKeepsWorld(w, steps[0]);
      RunKeepsWorld(ApplyStep(w, steps[0]), steps[1..]);
    }
  }

  /** A create stores the posted user under a new key exactly when this store has not already
      drawn the same id modulo 2^64; otherwise nothing changes. */
  lemma CreateStoresIff(steps: seq<WorldStep>, d: nat, user: User)
    requires d < |RunWorld(EMPTY_WORLD, steps).stores|
    ensures var w := RunWorld(EMPTY_WORLD, steps); var w' := ApplyStep(w, CreateIn(d, user)); var id := DrawnId(|w.owners|);
      && ((forall n | 0 <= n < |w.owners| && w.owners[n] == d :: DrawnId(n) != id) <==>
            id !in w.stores[d] && |w'.stores[d]| == |w.stores[d]| + 1 && w'.stores[d][id] == user.(id := id))
      && (id in w.stores[d] ==> w'.stores[d] == w.stores[d])
  {
    RunKeepsWorld(EMPTY_WORLD, steps);
  }

  /** Below 2^64 draws a key is the number of a draw its own store made. */
  lemma KeyIsOwnDraw(w: World, d: nat, k: UInt64)
    requires WorldOk(w) && |w.owners| <= UINT64_LIMIT && d < |w.stores| && k in w.stores[d]
    ensures k < |w.owners| && w.owners[k] == d
  {
    assert k in Drawn(w.owners, d);
  }

  lemma KeysBelow(w: World, d: nat)
    requires WorldOk(w) && |w.owners| < UINT64_LIMIT && d < |w.stores|
    ensures forall k :: k in w.stores[d] ==> k < DrawnId(|w.owners|)
  {
    forall k | k in w.stores[d]
      ensures k < |w.owners|
    {
      KeyIsOwnDraw(w, d, k);
    }
  }

  lemma KeysApart(w: World, d: nat, e: nat)
    requires WorldOk(w) && |w.owners| < UINT64_LIMIT && d < |w.stores| && e < |w.stores| && d != e
    ensures w.stores[d].Keys !! w.stores[e].Keys
  {
    forall k | k in w.stores[d]
      ensures k !in w.stores[e]
    {
      KeyIsOwnDraw(w, d, k);
      if k in w.stores[e] {
        KeyIsOwnDraw(w, e, k);
      }
    }
  }

  /** Below 2^64 draws: ids never repeat, so every create adds exactly its own entry, every key
      is below the next id, and different stores share no key. */
  lemma BelowLimit(steps: seq<WorldStep>, d: nat, e: nat, user: User)
    requires var w := RunWorld(EMPTY_WORLD, steps); |w.owners| < UINT64_LIMIT && d < |w.stores| && e < |w.stores|
    ensures var w := RunWorld(EMPTY_WORLD, steps); var id := DrawnId(|w.owners|);
      && KeyedById(w.stores[d])
      && (forall k :: k in w.stores[d] ==> k < id)
      && (d != e ==> w.stores[d].Keys !! w.stores[e].Keys)
      && ApplyStep(w, CreateIn(d, user)).stores[d] == w.stores[d][id := user.(id := id)]
  {
    hide Drawn, RunWorld;
    RunKeepsWorld(EMPTY_WORLD, steps);
    var w := RunWorld(EMPTY_WORLD, steps);
    KeysBelow(w, d);
    if d != e {
      KeysApart(w, d, e);
    }
  }

  /** The limit is real: the draw after the 2^64-th gives the first store its first id again, and
      the posted user is lost. */
  lemma AtLimitCreateIsLost(steps: seq<WorldStep>, user: User)
    requires var w := RunWorld(EMPTY_WORLD, steps); |w.owners| == UINT64_LIMIT && w.owners[0] == 0
    ensures var w := RunWorld(EMPTY_WORLD, steps);
      |w.stores| > 0 && ApplyStep(w, CreateIn(0, user)).stores[0] == w.stores[0]
  {
    RunKeepsWorld(EMPTY_WORLD, steps);
    var w := RunWorld(EMPTY_WORLD, steps);
    assert DrawnId(0) in Drawn(w.owners, 0);
  }

  /** The stored user with an id is the one under that key. */
  lemma StoredWithId(users: UserMap, user: User)
    requires KeyedById(users) && user in users.Values
    ensures user.id in users && users[user.id] == user
  {
  }

  /** `n` creates in the first store. */
  function Creates(n: nat, user: User): seq<WorldStep> {
    if n == 0 then [] else [CreateIn(0, user)] + Creates(n - 1, user)
  }

  lemma {:induction false} CreatesDraw(w: World, n: nat, user: User)
    requires |w.stores| > 0 && |w.owners| > 0 && w.owners[0] == 0
    ensures var w' := RunWorld(w, Creates(n, user)); |w'.owners| == |w.owners| + n && w'.owners[0] == 0
    decreases n
  {
    if n > 0 {
      CreatesDraw(ApplyStep(w, CreateIn(0, user)), n - 1, user);
    }
  }

  /** A run of one new store and then creates in it makes any number of draws from three on. */
  lemma DrawsReached(draws: nat, t1: ClockTime, t2: ClockTime, t3: ClockTime, user: User)
    requires draws >= 3
    ensures var w := RunWorld(EMPTY_WORLD, [NewStore(t1, t2, t3)] + Creates(draws - 3, user));
      |w.owners| == draws && w.owners[0] == 0
  {
    var w := ApplyStep(EMPTY_WORLD, NewStore(t1, t2, t3));
    CreatesDraw(w, draws - 3, user);
  }

  /** So the limit is met: after one new store and 2^64 - 3 creates, the next posted user is lost. */
  lemma LimitIsMet(t1: ClockTime, t2: ClockTime, t3: ClockTime, filler: User, user: User)
    ensures exists steps ::
      var w := RunWorld(EMPTY_WORLD, steps);
      |w.owners| == UINT64_LIMIT && |w.stores| > 0 && ApplyStep(w, CreateIn(0, user)).stores[0] == w.stores[0]
  {
    hide RunWorld, ApplyStep, Creates;
    var steps := [NewStore(t1, t2, t3)] + Creates(UINT64_LIMIT - 3, filler);
    DrawsReached(UINT64_LIMIT, t1, t2, t3, filler);
    AtLimitCreateIsLost(steps, user);
  }

  // ---------- the stores as objects ----------

  /** The objects hold what the world holds, and the next id is that of the world's next draw. */
  ghost predicate Mirrors(ids: IdSequences, stores: seq<InMemoryUserDao>, w: World)
    reads ids, stores
  {
    && ids.Next(USER_KEY) == DrawnId(|w.owners|)
    && |stores| == |w.stores|
    && (forall d | 0 <= d < |stores| :: stores[d].ids == ids && stores[d].users == w.stores[d])
    && (forall d, e | 0 <= d < e < |stores| :: stores[d] != stores[e])
  }

  lemma FreshMirrors(ids: IdSequences)
    requires ids.sequences == map[]
    ensures Mirrors(ids, [], EMPTY_WORLD) && WorldOk(EMPTY_WORLD)
  {
  }

  /** Every operation on the objects is the world's step. */
  method Perform(ids: IdSequences, stores: seq<InMemoryUserDao>, ghost w: World, step: WorldStep)
    returns (more: seq<InMemoryUserDao>)
    requires Mirrors(ids, stores, w) && WorldOk(w)
    modifies ids, stores
    ensures Mirrors(ids, more, ApplyStep(w, step)) && WorldOk(ApplyStep(w, step))
    ensures forall d | 0 <= d < |more| :: more[d] in stores || fresh(more[d])
  {
    more := stores;
    StepKeepsWorld(w, step);
    match step {
      case NewStore(t1, t2, t3) =>
        var store := new InMemoryUserDao(ids, t1, t2, t3);
        DrawnThirdNext(|w.owners|);
        more := more + [store];
      case CreateIn(d, user) =>
        if d < |stores| {
          NextDrawn(|w.owners|);
          var _ := stores[d].CreateUser(user);
        }
    }
  }

  lemma DrawnThirdNext(n: nat)
    ensures DrawnId(n + 3) == (DrawnId(n) + 3) % UINT64_LIMIT
  {
  }

  /** So the objects follow the world along every run. */
  method Replay(ids: IdSequences, stores: seq<InMemoryUserDao>, ghost w: World, steps: seq<WorldStep>)
    returns (more: seq<InMemoryUserDao>)
    requires Mirrors(ids, stores, w) && WorldOk(w)
    modifies ids, stores
    ensures Mirrors(ids, more, RunWorld(w, steps)) && WorldOk(RunWorld(w, steps))
    ensures forall d | 0 <= d < |more| :: more[d] in stores || fresh(more[d])
    decreases |steps|
  {
    more := stores;
    if steps != [] {
      var next := Perform(ids, stores, w, steps[0]);
      more := Replay(ids, next, ApplyStep(w, steps[0]), steps[1..]);
    }
  }
}
