/** The database user store of `user_manager/src/OdbUserDao.cc` over an abstract table.

    The table is a finite map with an id source that only goes up. Sequence values may be lost
    between two inserts (another session, a transaction that failed), which `gap` counts; an
    insert fails when the database says so or when the source is exhausted. */
module DatabaseStore {
  import opened Decimal
  import opened TimeMapping
  import opened Users

  /** The largest value of the id column's source is 2^63 - 1. */
  const SERIAL_LIMIT := 0x8000_0000_0000_0000
  const UINT16_LIMIT := 0x1_0000

  /** A stored row: the time is held as its database image. */
  datatype Row = Row(name: string, password: string, image: int)

  type Table = map<UInt64, Row>

  /** What the database does with one insert. */
  datatype InsertEvent = InsertEvent(gap: nat, fails: bool)

  function RowOf(user: User): Row {
    Row(user.name, user.password, PtimeToMillis(user.created))
  }

  function Loaded(id: UInt64, row: Row): User {
    User(id, row.name, row.password, MillisToPtime(row.image))
  }

  /** Ids come from the source, which starts at 1. */
  predicate TableOk(table: Table, lastId: nat) {
    && lastId < SERIAL_LIMIT
    && forall k :: k in table ==> 1 <= k <= lastId
  }

  function AssignedId(lastId: nat, event: InsertEvent): nat {
    lastId + 1 + event.gap
  }

  predicate InsertWorks(lastId: nat, event: InsertEvent) {
    !event.fails && AssignedId(lastId, event) < SERIAL_LIMIT
  }

  function Found(table: Table, id: UInt64): DaoResult {
    if id in table then Returned(Loaded(id, table[id])) else NullDereference
  }

  /** The table and the id source after a create, and what the caller gets: the row whose id is
      the low 16 bits of the new one. */
  function AfterCreate(table: Table, lastId: nat, user: User, event: InsertEvent): (r: (Table, nat, DaoResult))
    requires TableOk(table, lastId)
    ensures TableOk(r.0, r.1)
  {
    if InsertWorks(lastId, event) then
      var id: UInt64 := AssignedId(lastId, event);
      var table' := table[id := RowOf(user)];
      (table', id, Found(table', id % UINT16_LIMIT))
    else
      (table, if AssignedId(lastId, event) < SERIAL_LIMIT then AssignedId(lastId, event) else lastId, NullPointer)
  }

  datatype PersistResult = Persisted(id: UInt64) | DatabaseException

  class OdbUserDao {
    var table: Table
    var lastId: nat

    predicate Valid()
      reads this
    {
      TableOk(table, lastId)
    }

    constructor ()
      ensures Valid() && table == map[] && lastId == 0
    {
      table := map[];
      lastId := 0;
    }

    /** Insert a row through the value traits, or raise a database exception. */
    method Persist(user: User, event: InsertEvent) returns (r: PersistResult)
      requires Valid()
      modifies this
      ensures Valid()
      ensures r.Persisted? <==> InsertWorks(old(lastId), event)
      ensures r.Persisted? <==> !event.fails && old(lastId) + 1 + event.gap < 0x8000_0000_0000_0000
      ensures r.Persisted? ==>
        r.id == AssignedId(old(lastId), event) == lastId && table == old(table)[r.id := RowOf(user)]
      ensures r.DatabaseException? ==>
        && table == old(table)
        && lastId == if AssignedId(old(lastId), event) < SERIAL_LIMIT then AssignedId(old(lastId), event) else old(lastId)
    {
      var id := AssignedId(lastId, event);
      if id >= SERIAL_LIMIT {
        return DatabaseException;
      }
      lastId := id;
      if event.fails {
        return DatabaseException;
      }
      var image, isNull := SetImage(user.created);
      table := table[id := Row(user.name, user.password, image)];
      r := Persisted(id);
    }

    /** `query_one` and the dereference of its result. */
    method GetUserById(id: UInt64) returns (r: DaoResult)
      ensures r == Found(table, id)
      ensures id in table ==>
        r == Returned(User(id, table[id].name, table[id].password, MillisToPtime(table[id].image)))
      ensures id !in table ==> r == NullDereference
    {
      if id !in table {
        return NullDereference;
      }
      var row := table[id];
      var created := SetValue(row.image, false);
      MillisUnique(created, row.image);
      r := Returned(User(id, row.name, row.password, created));
    }

    /** All rows, each once, in the order the database chooses. */
    method GetUsers() returns (collection: seq<User>)
      ensures multiset(collection) == multiset(AllUsers(table))
    {
      collection := [];
      var pending := table;
      assert AllUsers(pending) == AllUsers(table);
      while pending != map[]
        invariant pending.Keys <= table.Keys && forall k | k in pending :: pending[k] == table[k]
        invariant multiset(collection) + multiset(AllUsers(pending)) == multiset(AllUsers(table))
        decreases |pending|
      {
        var k :| k in pending;
        RemoveRow(pending, k);
        collection := collection + [Loaded(k, pending[k])];
        pending := pending - {k};
      }
    }

    method CreateUser(user: User, event: InsertEvent) returns (r: DaoResult)
      requires Valid()
      modifies this
      ensures Valid()
      ensures (table, lastId, r) == AfterCreate(old(table), old(lastId), user, event)
    {
      var persisted := Persist(user, event);
      match persisted {
        case DatabaseException => r := NullPointer;
        case Persisted(newId) =>
          var id: UInt64 := newId % UINT16_LIMIT;  // the narrowing to uint16_t
          r := GetUserById(id);
      }
    }
  }

  function AllUsers(table: Table): set<User> {
    set k | k in table :: Loaded(k, table[k])
  }

  lemma MillisUnique(t: Ptime, ms: int)
    requires t % 1000 == 0 && PtimeToMillis(t) == ms
    ensures t == MillisToPtime(ms)
  {
  }

  lemma RemoveRow(table: Table, k: UInt64)
    requires k in table
    ensures |table - {k}| < |table|
    ensures multiset(AllUsers(table)) == multiset{Loaded(k, table[k])} + multiset(AllUsers(table - {k}))
  {
    var rest := table - {k};
    assert rest.Keys == table.Keys - {k};
    assert AllUsers(table) == {Loaded(k, table[k])} + AllUsers(rest) by {
      forall u | u in AllUsers(table)
        ensures u == Loaded(k, table[k]) || u in AllUsers(rest)
      {
        var j :| j in table && Loaded(j, table[j]) == u;
        if j != k {
          assert j in rest && rest[j] == table[j];
        }
      }
      forall u | u in AllUsers(rest)
        ensures u in AllUsers(table)
      {
        var j :| j in rest && Loaded(j, rest[j]) == u;
        assert table[j] == rest[j];
      }
    }
    assert Loaded(k, table[k]) !in AllUsers(rest);
  }

  /** A create hands back the row it has just written exactly when the new id fits 16 bits.
      Past that it hands back the row whose id is the low half, if there is one. */
  lemma CreateReturnsNewRowIff(table: Table, lastId: nat, user: User, event: InsertEvent)
    requires TableOk(table, lastId) && InsertWorks(lastId, event)
    ensures var r := AfterCreate(table, lastId, user, event).2; var id := AssignedId(lastId, event);
      && (r == Returned(Loaded(id, RowOf(user))) <==> id < UINT16_LIMIT)
      && (id >= UINT16_LIMIT ==> r == Found(table, id % UINT16_LIMIT) && (r.Returned? ==> r.user.id != id))
      && (id % UINT16_LIMIT == 0 ==> r == NullDereference)
  {
  }

  /** A create never changes a row that is already there. */
  lemma CreateKeepsRows(table: Table, lastId: nat, user: User, event: InsertEvent, id: UInt64)
    requires TableOk(table, lastId) && id in table
    ensures var table' := AfterCreate(table, lastId, user, event).0; id in table' && table'[id] == table[id]
  {
  }
}
