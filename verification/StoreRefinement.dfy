/** Both stores behave like one abstract store, up to renaming of ids and the millisecond image
    of the time.

    Callers name users by handle: the number of creates before theirs. A run of operations is
    replayed on the abstract store and on each real one, and what the callers see is compared. */
module StoreRefinement {
  import opened Wrappers
  import opened Decimal
  import opened TimeMapping
  import opened Users
  import opened InMemoryStore
  import opened DatabaseStore

  datatype Item = Item(name: string, password: string, created: Ptime)

  /** `event` is what happens around a create: ids that others draw meanwhile, and failures. */
  datatype Op = Create(item: Item, event: InsertEvent) | Get(handle: nat) | List

  datatype Seen =
    | Created(handle: Option<nat>, item: Item)
    | Got(handle: Option<nat>, item: Item)
    | Nothing
    | Listed(items: set<(Option<nat>, Item)>)

  // ---------- the abstract store ----------

  /** What reaches the abstract store. A refused create changes nothing and shows nothing. */
  datatype Call = Add(item: Item) | Refused | ShowOne(handle: nat) | ShowAll

  function AbstractStep(items: seq<Item>, call: Call): (seq<Item>, Seen) {
    match call
    case Add(item) => (items + [item], Created(Some(|items|), item))
    case Refused => (items, Nothing)
    case ShowOne(h) => (items, if h < |items| then Got(Some(h), items[h]) else Nothing)
    case ShowAll => (items, Listed(set h | 0 <= h < |items| :: (Some(h), items[h])))
  }

  function AbstractRun(items: seq<Item>, calls: seq<Call>): seq<Seen>
    decreases |calls|
  {
    if calls == [] then []
    else [AbstractStep(items, calls[0]).1] + AbstractRun(AbstractStep(items, calls[0]).0, calls[1..])
  }

  // ---------- ids and handles ----------

  function HandleOf(ids: seq<UInt64>, id: UInt64): (h: Option<nat>)
    ensures h.Some? ==> h.value < |ids| && ids[h.value] == id
    ensures h.None? ==> id !in ids
  {
    if ids == [] then None
    else if ids[|ids| - 1] == id then Some(|ids| - 1)
    else HandleOf(ids[..|ids| - 1], id)
  }

  predicate NoRepeats(ids: seq<UInt64>) {
    forall i, j | 0 <= i < j < |ids| :: ids[i] != ids[j]
  }

  function ItemOf(user: User): Item {
    Item(user.name, user.password, user.created)
  }

  function UserOf(id: UInt64, item: Item): User {
    User(id, item.name, item.password, item.created)
  }

  function SeenCreate(ids: seq<UInt64>, r: DaoResult): Seen {
    if r.Returned? then Created(HandleOf(ids, r.user.id), ItemOf(r.user)) else Nothing
  }

  function SeenGet(ids: seq<UInt64>, r: DaoResult): Seen {
    if r.Returned? then Got(HandleOf(ids, r.user.id), ItemOf(r.user)) else Nothing
  }

  function SeenList(ids: seq<UInt64>, users: set<User>): Seen {
    Listed(set u | u in users :: (HandleOf(ids, u.id), ItemOf(u)))
  }

  /** A set of users holds exactly the items, each under the id of its handle. */
  ghost predicate Holds(users: set<User>, ids: seq<UInt64>, items: seq<Item>) {
    && |ids| == |items|
    && NoRepeats(ids)
    && (forall h | 0 <= h < |ids| :: UserOf(ids[h], items[h]) in users)
    && (forall u | u in users :: u.id in ids && u == UserOf(u.id, items[HandleOf(ids, u.id).value]))
  }

  lemma SeenListHolds(users: set<User>, ids: seq<UInt64>, items: seq<Item>)
    requires Holds(users, ids, items)
    ensures SeenList(ids, users) == AbstractStep(items, ShowAll).1
  {
    forall h | 0 <= h < |items|
      ensures HandleOf(ids, ids[h]) == Some(h)
      ensures (Some(h), items[h]) in SeenList(ids, users).items
    {
      var u := UserOf(ids[h], items[h]);
      assert u in users && (HandleOf(ids, u.id), ItemOf(u)) == (Some(h), items[h]);
    }
    forall u | u in users
      ensures (HandleOf(ids, u.id), ItemOf(u)) in AbstractStep(items, ShowAll).1.items
    {
      assert HandleOf(ids, u.id).Some?;
    }
  }

  // ---------- the in-memory store ----------

  /** `draws` counts the draws on the shared sequence, by this store and by others. */
  datatype MemoryState = MemoryState(users: UserMap, draws: nat, ids: seq<UInt64>)

  function MemoryStep(s: MemoryState, op: Op): (MemoryState, Seen) {
    match op
    case Create(item, event) =>
      var id := DrawnId(s.draws + event.gap);
      var users := Inserted(s.users, UserOf(id, item));
      (MemoryState(users, s.draws + event.gap + 1, s.ids + [id]), SeenCreate(s.ids + [id], Returned(users[id])))
    case Get(h) =>
      (s, if h >= |s.ids| then Nothing
          else SeenGet(s.ids, if s.ids[h] in s.users then Returned(s.users[s.ids[h]]) else OutOfRange))
    case List => (s, SeenList(s.ids, s.users.Values))
  }

  function MemoryRun(s: MemoryState, ops: seq<Op>): seq<Seen>
    decreases |ops|
  {
    if ops == [] then [] else [MemoryStep(s, ops[0]).1] + MemoryRun(MemoryStep(s, ops[0]).0, ops[1..])
  }

  /** The in-memory store refuses no create and keeps times as they are. */
  function MemoryCall(op: Op): Call {
    match op
    case Create(item, _) => Add(item)
    case Get(h) => ShowOne(h)
    case List => ShowAll
  }

  function MemoryCalls(ops: seq<Op>): seq<Call> {
    if ops == [] then [] else [MemoryCall(ops[0])] + MemoryCalls(ops[1..])
  }

  ghost predicate MemoryRelated(s: MemoryState, items: seq<Item>) {
    && |s.ids| == |items|
    && NoRepeats(s.ids)
    && (forall h | 0 <= h < |s.ids| :: s.ids[h] in s.users && s.users[s.ids[h]] == UserOf(s.ids[h], items[h]))
    && (forall k | k in s.users :: k in s.ids)
  }

  /** No create of the run draws an id that the store already holds. */
  predicate Fresh(held: set<UInt64>, draws: nat, ops: seq<Op>)
    decreases |ops|
  {
    ops == [] ||
    match ops[0]
    case Create(_, event) =>
      var id := DrawnId(draws + event.gap);
      id !in held && Fresh(held + {id}, draws + event.gap + 1, ops[1..])
    case _ => Fresh(held, draws, ops[1..])
  }

  function DrawsOf(ops: seq<Op>): nat {
    if ops == [] then 0
    else (if ops[0].Create? then ops[0].event.gap + 1 else 0) + DrawsOf(ops[1..])
  }

  /** The class performs the step and shows what it shows; by the time of a create, others have
      drawn their ids. */
  method PerformInMemory(dao: InMemoryUserDao, op: Op, ids: seq<UInt64>, ghost s: MemoryState)
    returns (seen: Seen, more: seq<UInt64>)
    requires dao.Valid() && dao.users == s.users && ids == s.ids
    requires op.Create? ==> dao.ids.Next(USER_KEY) == DrawnId(s.draws + op.event.gap)
    modifies dao`users, dao.ids
    ensures var (s', shown) := MemoryStep(s, op);
      && dao.Valid() && dao.users == s'.users && more == s'.ids && seen == shown
      && dao.ids.Next(USER_KEY) == if op.Create? then DrawnId(s'.draws) else old(dao.ids.Next(USER_KEY))
  {
    more := ids;
    match op {
      case Create(item, event) =>
        NextDrawn(s.draws + event.gap);
        var created := dao.CreateUser(UserOf(0, item));
        more := ids + [created.id];
        seen := SeenCreate(more, Returned(created));
      case Get(h) =>
        seen := Nothing;
        if h < |ids| {
          var r := dao.GetUserById(ids[h]);
          if r.Returned? {
            StoredWithId(dao.users, r.user);
          }
          seen := SeenGet(ids, r);
        }
      case List =>
        var collection := dao.GetUsers();
        var users := set u | u in collection;
        SameElements(collection, dao.users.Values);
        seen := SeenList(ids, users);
    }
  }

  lemma SameElements(collection: seq<User>, users: set<User>)
    requires multiset(collection) == multiset(users)
    ensures (set u | u in collection) == users
  {
    assert forall u :: u in collection <==> u in multiset(collection);
    assert forall u :: u in users <==> u in multiset(users);
  }

  lemma StoredHasHandle(s: MemoryState, items: seq<Item>, u: User)
    requires MemoryRelated(s, items) && u in s.users.Values
    ensures u.id in s.ids && u == UserOf(u.id, items[HandleOf(s.ids, u.id).value])
  {
    var k :| k in s.users && s.users[k] == u;
    assert k in s.ids;
    var h :| 0 <= h < |s.ids| && s.ids[h] == k;
    assert u == UserOf(k, items[h]);
  }

  lemma MemoryHolds(s: MemoryState, items: seq<Item>)
    requires MemoryRelated(s, items)
    ensures Holds(s.users.Values, s.ids, items)
  {
    forall u | u in s.users.Values
      ensures u.id in s.ids && u == UserOf(u.id, items[HandleOf(s.ids, u.id).value])
    {
      StoredHasHandle(s, items, u);
    }
  }

  lemma MemoryCreateRefines(s: MemoryState, items: seq<Item>, item: Item, event: InsertEvent)
    requires MemoryRelated(s, items) && DrawnId(s.draws + event.gap) !in s.users
    ensures MemoryStep(s, Create(item, event)).1 == Created(Some(|items|), item)
    ensures MemoryRelated(MemoryStep(s, Create(item, event)).0, items + [item])
  {
    assert DrawnId(s.draws + event.gap) !in s.ids;
  }

  lemma MemoryStepRefines(s: MemoryState, items: seq<Item>, op: Op)
    requires MemoryRelated(s, items)
    requires Fresh(s.users.Keys, s.draws, [op])
    ensures MemoryStep(s, op).1 == AbstractStep(items, MemoryCall(op)).1
    ensures MemoryRelated(MemoryStep(s, op).0, AbstractStep(items, MemoryCall(op)).0)
  {
    match op
    case Create(item, event) =>
      hide MemoryRelated;
      MemoryCreateRefines(s, items, item, event);
    case Get(h) =>
    case List =>
      MemoryHolds(s, items);
      SeenListHolds(s.users.Values, s.ids, items);
  }

  lemma FreshNow(held: set<UInt64>, draws: nat)
    ensures Fresh(held, draws, []) && Fresh(held, draws, [List])
  {
  }

  /** A run is fresh iff its first operation is and so is the rest. */
  lemma FreshStep(s: MemoryState, ops: seq<Op>)
    requires ops != []
    ensures Fresh(s.users.Keys, s.draws, ops) <==>
      && Fresh(s.users.Keys, s.draws, [ops[0]])
      && Fresh(MemoryStep(s, ops[0]).0.users.Keys, MemoryStep(s, ops[0]).0.draws, ops[1..])
  {
    if ops[0].Create? {
      var id := DrawnId(s.draws + ops[0].event.gap);
      if id !in s.users {
        assert MemoryStep(s, ops[0]).0.users.Keys == s.users.Keys + {id};
      }
    }
  }

  /** Without a repeated id, callers of the in-memory store see exactly the abstract store. */
  lemma {:induction false} FreshRefines(s: MemoryState, items: seq<Item>, ops: seq<Op>)
    requires MemoryRelated(s, items) && Fresh(s.users.Keys, s.draws, ops)
    ensures MemoryRun(s, ops) == AbstractRun(items, MemoryCalls(ops))
    decreases |ops|
  {
    if ops != [] {
      FreshStep(s, ops);
      MemoryStepRefines(s, items, ops[0]);
      FreshRefines(MemoryStep(s, ops[0]).0, AbstractStep(items, MemoryCall(ops[0])).0, ops[1..]);
    }
  }

  lemma {:induction false} ValuesAtMostKeys(users: UserMap)
    ensures |users.Values| <= |users|
    decreases |users|
  {
    if users != map[] {
      var k :| k in users;
      var rest := users - {k};
      assert |rest.Keys| < |users.Keys| by { assert rest.Keys == users.Keys - {k}; }
      ValuesAtMostKeys(rest);
      assert users.Values <= rest.Values + {users[k]} by {
        forall u | u in users.Values
          ensures u in rest.Values + {users[k]}
        {
          var j :| j in users && users[j] == u;
          assert j != k ==> j in rest && rest[j] == u;
        }
      }
      SubsetAtMost(users.Values, rest.Values + {users[k]});
    }
  }

  lemma {:induction false} SubsetAtMost<T>(a: set<T>, b: set<T>)
    requires a <= b
    ensures |a| <= |b|
    decreases |a|
  {
    if a != {} {
      var x :| x in a;
      SubsetAtMost(a - {x}, b - {x});
    }
  }

  lemma {:induction false} SeenAtMostUsers(ids: seq<UInt64>, users: set<User>)
    ensures |SeenList(ids, users).items| <= |users|
    decreases |users|
  {
    if users != {} {
      var u :| u in users;
      SeenAtMostUsers(ids, users - {u});
      assert SeenList(ids, users).items == SeenList(ids, users - {u}).items + {(HandleOf(ids, u.id), ItemOf(u))};
    }
  }

  lemma {:induction false} AllShown(items: seq<Item>)
    ensures |AbstractStep(items, ShowAll).1.items| == |items|
  {
    if items != [] {
      var n := |items| - 1;
      var fewer := AbstractStep(items[..n], ShowAll).1.items;
      AllShown(items[..n]);
      assert AbstractStep(items, ShowAll).1.items == fewer + {(Some(n), items[n])};
      assert (Some(n), items[n]) !in fewer;
    }
  }

  lemma FirstAndRest<T>(x: T, xs: seq<T>, y: T, ys: seq<T>)
    ensures [x] + xs == [y] + ys <==> x == y && xs == ys
  {
    assert ([x] + xs)[0] == x && ([x] + xs)[1..] == xs;
    assert ([y] + ys)[0] == y && ([y] + ys)[1..] == ys;
  }

  /** Runs with a closing list agree iff they agree on the first operation and from there on. */
  lemma RunsFromNext(s: MemoryState, items: seq<Item>, ops: seq<Op>)
    requires ops != []
    ensures var (s', seen) := MemoryStep(s, ops[0]); var (items', seen') := AbstractStep(items, MemoryCall(ops[0]));
      MemoryRun(s, ops + [List]) == AbstractRun(items, MemoryCalls(ops + [List])) <==>
        seen == seen' && MemoryRun(s', ops[1..] + [List]) == AbstractRun(items', MemoryCalls(ops[1..] + [List]))
  {
    hide MemoryStep, AbstractStep, MemoryCall;
    assert (ops + [List])[1..] == ops[1..] + [List];
    var calls := MemoryCalls(ops + [List]);
    assert calls[0] == MemoryCall(ops[0]) && calls[1..] == MemoryCalls(ops[1..] + [List]);
    var (s', seen) := MemoryStep(s, ops[0]);
    var (items', seen') := AbstractStep(items, MemoryCall(ops[0]));
    FirstAndRest(seen, MemoryRun(s', ops[1..] + [List]), seen', AbstractRun(items', calls[1..]));
  }

  /** A store with fewer users than were created stays short, and a list shows it. */
  lemma {:induction false} ShortIsSeen(s: MemoryState, items: seq<Item>, ops: seq<Op>)
    requires |s.users| < |items|
    ensures MemoryRun(s, ops + [List]) != AbstractRun(items, MemoryCalls(ops + [List]))
    decreases |ops|
  {
    if ops == [] {
      assert MemoryCalls([List]) == [ShowAll];
      ValuesAtMostKeys(s.users);
      SeenAtMostUsers(s.ids, s.users.Values);
      AllShown(items);
      assert MemoryRun(s, [List])[0] == SeenList(s.ids, s.users.Values);
      assert AbstractRun(items, [ShowAll])[0] == AbstractStep(items, ShowAll).1;
    } else {
      RunsFromNext(s, items, ops);
      ShortIsSeen(MemoryStep(s, ops[0]).0, AbstractStep(items, MemoryCall(ops[0])).0, ops[1..]);
    }
  }

  function IdSet(ids: seq<UInt64>): set<UInt64> {
    set id | id in ids
  }

  lemma {:induction false} NoRepeatsCount(ids: seq<UInt64>)
    requires NoRepeats(ids)
    ensures |IdSet(ids)| == |ids|
  {
    if ids != [] {
      var n := |ids| - 1;
      var fewer := ids[..n];
      NoRepeatsCount(fewer);
      assert ids == fewer + [ids[n]];
      assert IdSet(ids) == IdSet(fewer) + {ids[n]};
    }
  }

  lemma RelatedCount(s: MemoryState, items: seq<Item>)
    requires MemoryRelated(s, items)
    ensures |s.users| == |items|
  {
    assert s.users.Keys == IdSet(s.ids);
    NoRepeatsCount(s.ids);
  }

  lemma NotFresh(held: set<UInt64>, draws: nat, op: Op)
    requires !Fresh(held, draws, [op])
    ensures op.Create? && DrawnId(draws + op.event.gap) in held
  {
  }

  lemma RepeatChangesNothing(s: MemoryState, item: Item, event: InsertEvent)
    requires DrawnId(s.draws + event.gap) in s.users
    ensures MemoryStep(s, Create(item, event)).0.users == s.users
  {
  }

  lemma RepeatIsShort(s: MemoryState, items: seq<Item>, op: Op)
    requires MemoryRelated(s, items) && !Fresh(s.users.Keys, s.draws, [op])
    ensures |MemoryStep(s, op).0.users| < |AbstractStep(items, MemoryCall(op)).0|
  {
    hide MemoryRelated, MemoryStep, Fresh, DrawnId;
    RelatedCount(s, items);
    NotFresh(s.users.Keys, s.draws, op);
    RepeatChangesNothing(s, op.item, op.event);
  }

  /** On every run that ends with a list, however many draws it makes: callers of the in-memory
      store see exactly the abstract store if and only if no create draws an id the store holds. */
  lemma {:induction false} MemoryRefinesIff(s: MemoryState, items: seq<Item>, ops: seq<Op>)
    requires MemoryRelated(s, items)
    ensures MemoryRun(s, ops + [List]) == AbstractRun(items, MemoryCalls(ops + [List])) <==> Fresh(s.users.Keys, s.draws, ops)
    decreases |ops|
  {
    hide MemoryRun, AbstractRun, MemoryCalls, MemoryStep, AbstractStep, MemoryRelated, Fresh;
    if ops == [] {
      FreshNow(s.users.Keys, s.draws);
      FreshRefines(s, items, [List]);
      assert [] + [List] == [List];
    } else {
      var (s', items') := (MemoryStep(s, ops[0]).0, AbstractStep(items, MemoryCall(ops[0])).0);
      RunsFromNext(s, items, ops);
      FreshStep(s, ops);
      if Fresh(s.users.Keys, s.draws, [ops[0]]) {
        MemoryStepRefines(s, items, ops[0]);
        MemoryRefinesIff(s', items', ops[1..]);
      } else {
        RepeatIsShort(s, items, ops[0]);
        ShortIsSeen(s', items', ops[1..]);
      }
    }
  }

  lemma {:induction false} BelowLimitIsFresh(held: set<UInt64>, draws: nat, ops: seq<Op>)
    requires forall k | k in held :: k < draws
    requires draws + DrawsOf(ops) <= UINT64_LIMIT
    ensures Fresh(held, draws, ops)
    decreases |ops|
  {
    if ops != [] {
      match ops[0]
      case Create(_, event) =>
        var id := draws + event.gap;
        assert DrawnId(id) == id;
        BelowLimitIsFresh(held + {id}, id + 1, ops[1..]);
      case _ => BelowLimitIsFresh(held, draws, ops[1..]);
    }
  }

  /** In particular they see it as long as the shared sequence does not pass 2^64 draws. */
  lemma MemoryRefines(s: MemoryState, items: seq<Item>, ops: seq<Op>)
    requires MemoryRelated(s, items) && forall k | k in s.users :: k < s.draws
    requires s.draws + DrawsOf(ops) <= UINT64_LIMIT
    ensures MemoryRun(s, ops) == AbstractRun(items, MemoryCalls(ops))
  {
    BelowLimitIsFresh(s.users.Keys, s.draws, ops);
    FreshRefines(s, items, ops);
  }

  /** A new in-memory store is related to the abstract store of its three first users. */
  lemma FreshMemoryRelated(draws: nat, t1: ClockTime, t2: ClockTime, t3: ClockTime)
    ensures var ids := [DrawnId(draws), DrawnId(draws + 1), DrawnId(draws + 2)];
      MemoryRelated(
        MemoryState(Seeded(DrawnId(draws), t1, t2, t3), draws + 3, ids),
        [Item("user1", "password1", t1), Item("user2", "password2", t2), Item("user3", "password3", t3)])
  {
    SeededKeys(DrawnId(draws), t1, t2, t3);
    NextDrawn(draws);
  }

  // ---------- the database store ----------

  datatype TableState = TableState(table: Table, lastId: nat, ids: seq<UInt64>)

  function TableStep(s: TableState, op: Op): (TableState, Seen)
    requires TableOk(s.table, s.lastId)
  {
    match op
    case Create(item, event) =>
      var (table, lastId, r) := AfterCreate(s.table, s.lastId, UserOf(0, item), event);
      var ids := if InsertWorks(s.lastId, event) then s.ids + [lastId] else s.ids;
      (TableState(table, lastId, ids), SeenCreate(ids, r))
    case Get(h) => (s, if h >= |s.ids| then Nothing else SeenGet(s.ids, Found(s.table, s.ids[h])))
    case List => (s, SeenList(s.ids, AllUsers(s.table)))
  }

  function TableRun(s: TableState, ops: seq<Op>): seq<Seen>
    requires TableOk(s.table, s.lastId)
    decreases |ops|
  {
    if ops == [] then [] else [TableStep(s, ops[0]).1] + TableRun(TableStep(s, ops[0]).0, ops[1..])
  }

  /** The class performs the step and shows what it shows. */
  method PerformInTable(dao: OdbUserDao, op: Op, ids: seq<UInt64>, ghost s: TableState)
    returns (seen: Seen, more: seq<UInt64>)
    requires dao.Valid() && dao.table == s.table && dao.lastId == s.lastId && ids == s.ids
    modifies dao
    ensures var (s', shown) := TableStep(s, op);
      dao.Valid() && dao.table == s'.table && dao.lastId == s'.lastId && more == s'.ids && seen == shown
  {
    more := ids;
    match op {
      case Create(item, event) =>
        var works := InsertWorks(dao.lastId, event);
        var r := dao.CreateUser(UserOf(0, item), event);
        if works {
          more := ids + [dao.lastId];
        }
        seen := SeenCreate(more, r);
      case Get(h) =>
        seen := Nothing;
        if h < |ids| {
          var r := dao.GetUserById(ids[h]);
          seen := SeenGet(ids, r);
        }
      case List =>
        var collection := dao.GetUsers();
        var users := set u | u in collection;
        SameElements(collection, AllUsers(dao.table));
        seen := SeenList(ids, users);
    }
  }

  /** The database store cuts times to whole milliseconds and refuses a create whose insert fails. */
  function TableCall(lastId: nat, op: Op): Call {
    match op
    case Create(item, event) =>
      if InsertWorks(lastId, event) then Add(item.(created := MsTruncate(item.created))) else Refused
    case Get(h) => ShowOne(h)
    case List => ShowAll
  }

  /** The id source behind an operation: a failed insert uses up its id too. */
  function LastIdAfter(lastId: nat, op: Op): nat {
    if op.Create? && AssignedId(lastId, op.event) < SERIAL_LIMIT then AssignedId(lastId, op.event) else lastId
  }

  function TableCalls(lastId: nat, ops: seq<Op>): (r: seq<Call>)
    decreases |ops|
  {
    if ops == [] then [] else [TableCall(lastId, ops[0])] + TableCalls(LastIdAfter(lastId, ops[0]), ops[1..])
  }

  /** Every id that the run assigns to a row fits 16 bits; a failed insert assigns none. */
  predicate IdsFit(lastId: nat, ops: seq<Op>)
    decreases |ops|
  {
    ops != [] ==>
    && (ops[0].Create? && InsertWorks(lastId, ops[0].event) ==> AssignedId(lastId, ops[0].event) < UINT16_LIMIT)
    && IdsFit(LastIdAfter(lastId, ops[0]), ops[1..])
  }

  ghost predicate TableRelated(s: TableState, items: seq<Item>) {
    && TableOk(s.table, s.lastId)
    && |s.ids| == |items|
    && NoRepeats(s.ids)
    && (forall h | 0 <= h < |s.ids| :: s.ids[h] in s.table && Loaded(s.ids[h], s.table[s.ids[h]]) == UserOf(s.ids[h], items[h]))
    && (forall k | k in s.table :: k in s.ids)
  }

  lemma TableHolds(s: TableState, items: seq<Item>)
    requires TableRelated(s, items)
    ensures Holds(AllUsers(s.table), s.ids, items)
  {
    forall u | u in AllUsers(s.table)
      ensures u.id in s.ids && u == UserOf(u.id, items[HandleOf(s.ids, u.id).value])
    {
      var k :| k in s.table && Loaded(k, s.table[k]) == u;
      assert k in s.ids;
      var h :| 0 <= h < |s.ids| && s.ids[h] == k;
    }
  }

  lemma TableCreateRefines(s: TableState, items: seq<Item>, item: Item, event: InsertEvent)
    requires TableRelated(s, items) && InsertWorks(s.lastId, event)
    ensures var (s', seen) := TableStep(s, Create(item, event)); var kept := item.(created := MsTruncate(item.created));
      && (seen == Created(Some(|items|), kept) <==> AssignedId(s.lastId, event) < UINT16_LIMIT)
      && TableRelated(s', items + [kept])
  {
    assert AssignedId(s.lastId, event) !in s.ids;
    CreateReturnsNewRowIff(s.table, s.lastId, UserOf(0, item), event);
  }

  /** A create looks right exactly when it is refused or its id fits; the others always do. */
  lemma TableStepRefines(s: TableState, items: seq<Item>, op: Op)
    requires TableRelated(s, items)
    ensures TableStep(s, op).0.lastId == LastIdAfter(s.lastId, op)
    ensures TableStep(s, op).1 == AbstractStep(items, TableCall(s.lastId, op)).1 <==> IdsFit(s.lastId, [op])
    ensures IdsFit(s.lastId, [op]) ==> TableRelated(TableStep(s, op).0, AbstractStep(items, TableCall(s.lastId, op)).0)
  {
    match op
    case Create(item, event) =>
      if InsertWorks(s.lastId, event) {
        hide TableRelated, MsTruncate;
        TableCreateRefines(s, items, item, event);
      }
    case Get(h) =>
    case List =>
      TableHolds(s, items);
      SeenListHolds(AllUsers(s.table), s.ids, items);
  }

  /** On every run, whatever ids the database skips and whichever inserts fail: callers of the
      database store see exactly the abstract store, with times in whole milliseconds and the
      failed creates refused, if and only if every id it assigns is below 65536. */
  lemma {:induction false} TableRefinesIff(s: TableState, items: seq<Item>, ops: seq<Op>)
    requires TableRelated(s, items)
    ensures TableRun(s, ops) == AbstractRun(items, TableCalls(s.lastId, ops)) <==> IdsFit(s.lastId, ops)
    decreases |ops|
  {
    if ops != [] {
      var (op, rest) := (ops[0], ops[1..]);
      var (s', call) := (TableStep(s, op).0, TableCall(s.lastId, op));
      TableStepRefines(s, items, op);
      assert TableRun(s, ops)[0] == TableStep(s, op).1;
      assert AbstractRun(items, TableCalls(s.lastId, ops))[0] == AbstractStep(items, call).1;
      if IdsFit(s.lastId, [op]) {
        var items' := AbstractStep(items, call).0;
        TableRefinesIff(s', items', rest);
        assert TableRun(s, ops)[1..] == TableRun(s', rest);
        assert AbstractRun(items, TableCalls(s.lastId, ops))[1..] == AbstractRun(items', TableCalls(s'.lastId, rest));
      }
    }
  }

  lemma FreshTableRelated()
    ensures TableRelated(TableState(map[], 0, []), [])
  {
  }

  // ---------- the two stores side by side ----------

  /** Every insert of the run works and every posted time is whole milliseconds. */
  predicate StoredAsPosted(lastId: nat, ops: seq<Op>)
    decreases |ops|
  {
    ops != [] ==>
    && (ops[0].Create? ==> InsertWorks(lastId, ops[0].event) && ops[0].item.created % 1000 == 0)
    && StoredAsPosted(LastIdAfter(lastId, ops[0]), ops[1..])
  }

  /** The abstract store shows the difference as soon as a create is refused or its time is cut. */
  lemma {:induction false} CallsAgreeIff(items: seq<Item>, lastId: nat, ops: seq<Op>)
    ensures AbstractRun(items, MemoryCalls(ops)) == AbstractRun(items, TableCalls(lastId, ops)) <==> StoredAsPosted(lastId, ops)
    decreases |ops|
  {
    if ops != [] {
      var (op, rest) := (ops[0], ops[1..]);
      var (call, call') := (MemoryCall(op), TableCall(lastId, op));
      if op.Create? {
        MsTruncateTowardEpoch(op.item.created);
      }
      assert AbstractRun(items, MemoryCalls(ops))[0] == AbstractStep(items, call).1;
      assert AbstractRun(items, TableCalls(lastId, ops))[0] == AbstractStep(items, call').1;
      if call == call' {
        var items' := AbstractStep(items, call).0;
        CallsAgreeIff(items', LastIdAfter(lastId, op), rest);
        assert AbstractRun(items, MemoryCalls(ops))[1..] == AbstractRun(items', MemoryCalls(rest));
        assert AbstractRun(items, TableCalls(lastId, ops))[1..] == AbstractRun(items', TableCalls(LastIdAfter(lastId, op), rest));
      }
    }
  }

  /** From related states, on runs that repeat no id and pass no id limit: callers can tell the two
      stores apart if and only if some insert fails or some posted time has a part below the
      millisecond. */
  lemma StoresAgreeIff(m: MemoryState, s: TableState, items: seq<Item>, ops: seq<Op>)
    requires MemoryRelated(m, items) && TableRelated(s, items)
    requires Fresh(m.users.Keys, m.draws, ops) && IdsFit(s.lastId, ops)
    ensures MemoryRun(m, ops) == TableRun(s, ops) <==> StoredAsPosted(s.lastId, ops)
  {
    FreshRefines(m, items, ops);
    TableRefinesIff(s, items, ops);
    CallsAgreeIff(items, s.lastId, ops);
  }
}
