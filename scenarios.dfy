/**
 * Short client sessions against a fresh UserService (empty table, empty Redis) that show,
 * call by call, what the cache-aside and login-tracking operations do together.
 */
module Scenarios {
  import opened Common
  import opened Keys
  import opened Store
  import opened Bitmaps
  import opened Tracker
  import opened Service

  /**
   * addUser then deleteUser as written: the row is gone, but the cache entry addUser wrote
   * is not the key deleteUser evicts, so findUserById still answers with the deleted row.
   */
  method StaleEntryAfterDelete(u: User, rendered: string, defaults: map<string, string>)
    returns (service: UserService, found: Option<Entry>)
    requires rendered != DecimalString(u.id)
    ensures u.id !in service.db
    ensures found == Some(UserEntry(Merge(User(u.id, defaults), u)))
    ensures service.storeReads == 1
  {
    service := new UserService(map[], map[], map[], defaults);
    var duplicate := service.AddUser(u);
    OtherTextIsNotUserKey(u.id, rendered);
    service.DeleteUser(u, rendered);
    found := service.FindUserById(u.id);
  }

  /** addUser then a delete that evicts the id's own key: the next read finds nothing. */
  method NoStaleEntryAfterDeleteById(u: User) returns (service: UserService, found: Option<Entry>)
    ensures u.id !in service.db && UserKey(u.id) !in service.cache
    ensures found == None
    ensures service.storeReads == 2
  {
    service := new UserService(map[], map[], map[], map[]);
    var duplicate := service.AddUser(u);
    service.DeleteUserById(u.id);
    found := service.FindUserById(u.id);
  }

  /** findUserById on a missing id caches nothing, so every repeat reaches MySQL. */
  method PlainReadPenetrates(id: int) returns (service: UserService, first: Option<Entry>, second: Option<Entry>)
    ensures first == None && second == None
    ensures UserKey(id) !in service.cache
    ensures service.storeReads == 2
  {
    service := new UserService(map[], map[], map[], map[]);
    first := service.FindUserById(id);
    second := service.FindUserById(id);
  }

  /**
   * findUserById2 on a missing id caches the blank marker, and the model reads that marker
   * back as a hit, so the repeat does not reach MySQL. The Java code does not do this: its
   * `(User)` cast turns the marker into null or an exception, and the read misses.
   */
  method GuardedReadCachesMiss(id: int) returns (service: UserService, first: Option<Entry>, second: Option<Entry>)
    ensures first == None && second == Some(BlankEntry)
    ensures service.cache == map[UserKey(id) := Cached(BlankEntry, BLANK_TTL)]
    ensures service.storeReads == 1
  {
    service := new UserService(map[], map[], map[], map[]);
    first := service.FindUserById2(id);
    second := service.FindUserById2(id);
  }

  /**
   * countContinuousLoginUsers as written over a month where only day 2 has a bitmap:
   * the null `prevLogin` left by day 1 is dereferenced.
   */
  method NullDerefOnAbsentDay(offset: nat) returns (r: Result<Report, Fault>)
    ensures r == Failure(NullPointer)
  {
    var bm := map[DayKey(2) := {offset}];
    var service := new UserService(map[], map[], bm, map[]);
    NullDerefOnDayTwo(offset);
    r := service.CountContinuousLoginUsers();
    assert r.Failure? && r.error.NullPointer?;
  }

  /**
   * countContinuousLoginUsers as written when days 1 and 2 both set offset 3: one pair,
   * reported as 5, because BitSet.valueOf reads bit 3 of the Redis byte as index 4.
   */
  method TwoDayReport() returns (r: Result<Report, Fault>)
    ensures r == Success(Report(1, [5]))
  {
    assert Mirror(3) == 4;
    TwoDayNoNull(3);
    TwoDayStreak(3, DAYS);
    var service := new UserService(map[], map[], TwoDayBits(3), map[]);
    r := service.CountContinuousLoginUsers();
  }
}
