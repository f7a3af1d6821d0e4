/**
 * The durable user table and the values the service keeps in the Redis cache.
 *
 * The mapper (UserMapper) is not part of this model. Its statements are modelled by what
 * their generated SQL does on a table keyed by the primary key `id`. A row is the id
 * plus its non-null columns; a column missing from `columns` is NULL.
 */
module Store {
  import opened Common

  datatype User = User(id: int, columns: map<string, string>)

  /** The user table, by primary key. */
  type Table = map<int, User>

  /** What a mapper write statement reports (the affected-row count) and leaves behind. */
  datatype Write = Write(rows: nat, table: Table)

  /** Outcome of `insertSelective`: a second row with the same primary key is refused. */
  datatype Insert = Inserted(rows: nat, table: Table) | DuplicateKey

  /** `updateByPrimaryKeySelective` keeps every column the caller left NULL. */
  function Merge(row: User, update: User): (r: User)
    ensures r.id == row.id
    ensures r.columns.Keys == row.columns.Keys + update.columns.Keys
    ensures forall c :: c in update.columns ==> r.columns[c] == update.columns[c]
    ensures forall c :: c in row.columns && c !in update.columns ==> r.columns[c] == row.columns[c]
  {
    User(row.id, row.columns + update.columns)
  }

  /**
   * The re-read row equals the caller's object exactly when the caller supplied every
   * column the stored row has: otherwise the cache receives columns the caller never sent.
   */
  lemma MergeIsCallerObject(row: User, update: User)
    requires row.id == update.id
    ensures Merge(row, update) == update <==> row.columns.Keys <= update.columns.Keys
  {
    if row.columns.Keys <= update.columns.Keys {
      assert Merge(row, update).columns == update.columns;
    }
  }

  /**
   * `insertSelective(user)`: one new row, or a duplicate-key error that changes nothing.
   * The statement names only the columns the caller set, so every column left NULL takes
   * the table's default; `defaults` holds the columns whose default is not NULL.
   */
  function InsertSelective(t: Table, defaults: map<string, string>, u: User): (r: Insert)
    ensures r.DuplicateKey? <==> u.id in t
    ensures r.Inserted? ==> r.rows == 1 && r.table.Keys == t.Keys + {u.id}
    ensures r.Inserted? ==> forall k :: k in t ==> r.table[k] == t[k]
    ensures r.Inserted? ==> r.table[u.id] == Merge(User(u.id, defaults), u)
  {
    if u.id in t then DuplicateKey else Inserted(1, t[u.id := User(u.id, defaults + u.columns)])
  }

  /**
   * The inserted row, which addUser re-reads and caches, equals the caller's object exactly
   * when the caller set every column that has a default.
   */
  lemma InsertedRowIsCallerObject(t: Table, defaults: map<string, string>, u: User)
    requires u.id !in t
    ensures InsertSelective(t, defaults, u).table[u.id] == u <==> defaults.Keys <= u.columns.Keys
  {
    MergeIsCallerObject(User(u.id, defaults), u);
  }

  /** `updateByPrimaryKeySelective(user)`: merges into the row with the same id, if any. */
  function UpdateSelective(t: Table, u: User): (r: Write)
    ensures r.rows > 0 <==> u.id in t
    ensures r.rows > 0 ==> r.table == t[u.id := Merge(t[u.id], u)]
    ensures r.rows == 0 ==> r.table == t
    ensures r.table.Keys == t.Keys
  {
    if u.id in t then Write(1, t[u.id := Merge(t[u.id], u)]) else Write(0, t)
  }

  /** `deleteByPrimaryKey(id)`: removes the row with that id, if any. */
  function DeleteByKey(t: Table, id: int): (r: Write)
    ensures r.rows > 0 <==> id in t
    ensures id !in r.table && r.table.Keys == t.Keys - {id}
    ensures forall k :: k in r.table ==> r.table[k] == t[k]
  {
    if id in t then Write(1, t - {id}) else Write(0, t)
  }

  /** `selectByPrimaryKey(id)`: the row, or null. */
  function SelectByKey(t: Table, id: int): (r: Option<User>)
    requires KeyedById(t)
    ensures r.Some? <==> id in t
    ensures r.Some? ==> r.value == t[id] && r.value.id == id
  {
    if id in t then Some(t[id]) else None
  }

  /** Every row is stored under its own primary key. */
  predicate KeyedById(t: Table) { forall k :: k in t ==> t[k].id == k }

  /** Time to live attached to a cache write; expiry itself is not modelled. */
  datatype Ttl = Persistent | Expires(seconds: nat)

  /** The negative-cache marker lives 60 seconds; a user cached by the guarded read 7 days. */
  const BLANK_TTL: Ttl := Expires(60)
  const USER_TTL: Ttl := Expires(7 * 24 * 60 * 60)

  /** A cached value: a user, or the empty string "" that marks a known-absent id. */
  datatype Entry = UserEntry(user: User) | BlankEntry

  datatype Cached = Cached(entry: Entry, ttl: Ttl)

  /** The string-valued part of Redis, by key. */
  type Cache = map<string, Cached>
}
