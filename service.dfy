/**
 * The service object: the MySQL user table, the Redis cache and the Redis login bitmaps
 * it works on, and the operations of UserService over them.
 */
module Service {
  import opened Common
  import opened Keys
  import opened Store
  import opened Bitmaps
  import opened Tracker

  /** The exception countContinuousLoginUsers can raise. */
  datatype Fault = NullPointer

  /** What countContinuousLoginUsers prints: the running count and the list `userIds`. */
  datatype Report = Report(continuousLoginUsers: nat, userIds: seq<int>)

  /** The `nextSetBit` walk over a BitSet, adding j + 1 for every set bit j. */
  method ListSetBits(s: set<nat>) returns (ids: seq<int>)
    ensures ids == Reported(s)
  {
    ids := [];
    var rest := s;
    while rest != {}
      invariant rest <= s
      invariant ids + Reported(rest) == Reported(s)
      decreases |rest|
    {
      var j :| j in rest && forall k :: k in rest ==> j <= k;
      assert j == Min(rest);
      assert Reported(rest) == [j + 1] + Reported(rest - {j});
      ids := ids + [j + 1];
      rest := rest - {j};
    }
  }

  /** The loop of countLoginUsers over the day bitmaps `bm`: OR the 30 day BitSets (absent days skipped) and count the bits. */
  method CountLogins(bm: Bits) returns (loginUsers: nat)
    ensures loginUsers == LoginUsers(bm)
  {
    var login: set<nat> := {};
    for i := 1 to DAYS + 1
      invariant login == UnionThrough(bm, i - 1)
    {
      var date := DayKey(i);
      UnionThroughStep(bm, i);
      if date in bm {
        var bitSet := MirrorSet(bm[date]);
        login := login + bitSet;
      }
    }
    loginUsers := |login|;
  }

  /**
   * The loop of countContinuousLoginUsers as written, over the day bitmaps `bm`: an absent day sets `prevLogin` to null, and the
   * next present day clones it.
   */
  method ContinuousLogins(bm: Bits) returns (r: Result<Report, Fault>)
    ensures r.Failure? <==> NullThrough(bm, DAYS)
    ensures r.Success? ==> r.value == Report(PairsCount(bm, DAYS), PairsIds(bm, DAYS))
  {
    var continuousLoginUsers: nat := 0;
    var userIds: seq<int> := [];
    var prevLogin: Option<set<nat>> := Some({});
    for i := 1 to DAYS + 1
      invariant !NullThrough(bm, i - 1)
      invariant prevLogin.Some? ==> prevLogin.value == if i == 1 then {} else DayOrEmpty(bm, i - 1)
      invariant prevLogin.None? <==> 1 < i && DayKey(i - 1) !in bm
      invariant continuousLoginUsers == PairsCount(bm, i - 1)
      invariant userIds == PairsIds(bm, i - 1)
    {
      var date := DayKey(i);
      var bitSet: Option<set<nat>> := None;
      if date in bm {
        bitSet := Some(MirrorSet(bm[date]));
        if prevLogin.None? {
          NullAtFails(bm, i);
          return Failure(NullPointer);
        }
        var continuousLogin := prevLogin.value * bitSet.value;
        var continuousLoginCount := |continuousLogin|;
        if continuousLoginCount > 0 {
          continuousLoginUsers := continuousLoginUsers + continuousLoginCount;
          var ids := ListSetBits(continuousLogin);
          userIds := userIds + ids;
        }
      }
      NullFreeStep(bm, i);
      ghost var prev := if i == 1 then {} else DayOrEmpty(bm, i - 1);
      PairsStep(bm, i, prev, if bitSet.Some? then bitSet.value else {});
      prevLogin := bitSet;
    }
    r := Success(Report(continuousLoginUsers, userIds));
  }

  /** The loop of countContinuousLoginUsers with an absent day read as an empty BitSet: it never fails. */
  method ContinuousLoginsSafe(bm: Bits) returns (report: Report)
    ensures report == Report(PairsCount(bm, DAYS), PairsIds(bm, DAYS))
  {
    var continuousLoginUsers: nat := 0;
    var userIds: seq<int> := [];
    var prevLogin: set<nat> := {};
    for i := 1 to DAYS + 1
      invariant prevLogin == if i == 1 then {} else DayOrEmpty(bm, i - 1)
      invariant continuousLoginUsers == PairsCount(bm, i - 1)
      invariant userIds == PairsIds(bm, i - 1)
    {
      var date := DayKey(i);
      var bitSet: set<nat> := {};
      if date in bm {
        bitSet := MirrorSet(bm[date]);
        var continuousLogin := prevLogin * bitSet;
        var continuousLoginCount := |continuousLogin|;
        if continuousLoginCount > 0 {
          continuousLoginUsers := continuousLoginUsers + continuousLoginCount;
          var ids := ListSetBits(continuousLogin);
          userIds := userIds + ids;
        }
      }
      PairsStep(bm, i, prevLogin, bitSet);
      prevLogin := bitSet;
    }
    report := Report(continuousLoginUsers, userIds);
  }

  class UserService {
    /** The user table in MySQL. */
    var db: Table
    /** The string values in Redis (user keys). */
    var cache: Cache
    /** The bitmap values in Redis (day keys). */
    var bitmaps: Bits
    /** How many SELECTs the service has sent to MySQL. */
    var storeReads: nat
    /** The table's non-NULL column defaults, which fill the columns an insert leaves out. */
    const defaults: map<string, string>

    ghost predicate Valid()
      reads this
    {
      KeyedById(db)
    }

    constructor (db: Table, cache: Cache, bitmaps: Bits, defaults: map<string, string>)
      requires KeyedById(db)
      ensures Valid()
      ensures this.db == db && this.cache == cache && this.bitmaps == bitmaps && storeReads == 0
      ensures this.defaults == defaults
    {
      this.defaults := defaults;
      this.db := db;
      this.cache := cache;
      this.bitmaps := bitmaps;
      storeReads := 0;
    }

    /** `selectByPrimaryKey(id)` sent to MySQL. */
    method Select(id: int) returns (row: Option<User>)
      requires Valid()
      modifies this`storeReads
      ensures row.Some? <==> id in db
      ensures row.Some? ==> row.value == db[id] && row.value.id == id
      ensures storeReads == old(storeReads) + 1
    {
      row := SelectByKey(db, id);
      storeReads := storeReads + 1;
    }

    /** `opsForValue().get(key)`: the cached value, or null. */
    method Get(key: string) returns (v: Option<Entry>)
      ensures v.Some? <==> key in cache
      ensures v.Some? ==> v.value == cache[key].entry
    {
      v := if key in cache then Some(cache[key].entry) else None;
    }

    /** `opsForValue().setIfAbsent(key, v, ttl)`: an existing entry is never overwritten. */
    method SetIfAbsent(key: string, v: Cached) returns (wasSet: bool)
      modifies this`cache
      ensures wasSet <==> key !in old(cache)
      ensures wasSet ==> cache == old(cache)[key := v]
      ensures !wasSet ==> cache == old(cache)
    {
      wasSet := key !in cache;
      if wasSet {
        cache := cache[key := v];
      }
    }

    /**
     * addUser: insert, and only when a row was inserted re-read it and cache the re-read row.
     * `duplicate` reports the duplicate-key exception, which leaves everything unchanged.
     */
    method AddUser(user: User) returns (duplicate: bool)
      requires Valid()
      modifies this`db, this`cache, this`storeReads
      ensures Valid()
      ensures duplicate <==> user.id in old(db)
      ensures duplicate ==> db == old(db) && cache == old(cache) && storeReads == old(storeReads)
      ensures !duplicate ==> db == old(db)[user.id := Merge(User(user.id, defaults), user)]
      ensures !duplicate ==> storeReads == old(storeReads) + 1
      ensures !duplicate ==> cache == old(cache)[UserKey(user.id) := Cached(UserEntry(db[user.id]), Persistent)]
    {
      var insert := InsertSelective(db, defaults, user);
      if insert.DuplicateKey? {
        return true;
      }
      db := insert.table;
      if insert.rows > 0 {
        var row := Select(user.id);
        var key := UserKey(row.value.id);
        cache := cache[key := Cached(UserEntry(row.value), Persistent)];
      }
      return false;
    }

    /**
     * updateUser: selective update; when a row was affected the merged row is re-read and
     * cached, otherwise nothing happens and no error is raised.
     */
    method UpdateUser(user: User)
      requires Valid()
      modifies this`db, this`cache, this`storeReads
      ensures Valid()
      ensures user.id !in old(db) ==> db == old(db) && cache == old(cache) && storeReads == old(storeReads)
      ensures user.id in old(db) ==> db == old(db)[user.id := Merge(old(db)[user.id], user)]
      ensures user.id in old(db) ==> cache == old(cache)[UserKey(user.id) := Cached(UserEntry(db[user.id]), Persistent)]
      ensures user.id in old(db) ==> storeReads == old(storeReads) + 1
    {
      var update := UpdateSelective(db, user);
      db := update.table;
      if update.rows > 0 {
        var row := Select(user.id);
        var key := UserKey(row.value.id);
        cache := cache[key := Cached(UserEntry(row.value), Persistent)];
      }
    }

    /**
     * deleteUser as written: the row of `user.id` is deleted, but the cache key evicted is
     * "user:" followed by `rendered`, the string form of the User argument.
     */
    method DeleteUser(user: User, rendered: string)
      requires Valid()
      modifies this`db, this`cache
      ensures Valid()
      ensures user.id !in old(db) ==> db == old(db) && cache == old(cache)
      ensures user.id in old(db) ==> db == old(db) - {user.id} && cache == old(cache) - {USER_PREFIX + rendered}
    {
      var delete := DeleteByKey(db, user.id);
      db := delete.table;
      if delete.rows > 0 {
        var key := USER_PREFIX + rendered;
        cache := cache - {key};
      }
    }

    /** deleteUser with the key built from the id, as addUser and updateUser build it. */
    method DeleteUserById(id: int)
      requires Valid()
      modifies this`db, this`cache
      ensures Valid()
      ensures id !in old(db) ==> db == old(db) && cache == old(cache)
      ensures id in old(db) ==> db == old(db) - {id} && cache == old(cache) - {UserKey(id)}
    {
      var delete := DeleteByKey(db, id);
      db := delete.table;
      if delete.rows > 0 {
        cache := cache - {UserKey(id)};
      }
    }

    /**
     * findUserById: a hit is returned without asking MySQL; on a miss MySQL is asked, a found
     * row is cached without expiry, and a missing row is not cached at all.
     */
    method FindUserById(id: int) returns (user: Option<Entry>)
      requires Valid()
      modifies this`cache, this`storeReads
      ensures UserKey(id) in old(cache) ==>
                user == Some(old(cache)[UserKey(id)].entry) &&
                cache == old(cache) && storeReads == old(storeReads)
      ensures UserKey(id) !in old(cache) ==> storeReads == old(storeReads) + 1
      ensures UserKey(id) !in old(cache) && id !in db ==> user == None && cache == old(cache)
      ensures UserKey(id) !in old(cache) && id in db ==>
                user == Some(UserEntry(db[id])) &&
                cache == old(cache)[UserKey(id) := Cached(UserEntry(db[id]), Persistent)]
    {
      var key := UserKey(id);
      user := Get(key);
      if user.None? {
        var row := Select(id);
        if row.None? {
          return None;
        }
        user := Some(UserEntry(row.value));
        cache := cache[key := Cached(UserEntry(row.value), Persistent)];
      }
    }

    /**
     * findUserById2: like findUserById, but under the class lock it reads the cache a second
     * time, caches a missing row as "" for 60 seconds, and caches a found row for 7 days with
     * set-if-absent.
     */
    method FindUserById2(id: int) returns (user: Option<Entry>)
      requires Valid()
      modifies this`cache, this`storeReads
      ensures UserKey(id) in old(cache) ==>
                user == Some(old(cache)[UserKey(id)].entry) &&
                cache == old(cache) && storeReads == old(storeReads)
      ensures UserKey(id) !in old(cache) ==> storeReads == old(storeReads) + 1
      ensures UserKey(id) !in old(cache) && id !in db ==>
                user == None && cache == old(cache)[UserKey(id) := Cached(BlankEntry, BLANK_TTL)]
      ensures UserKey(id) !in old(cache) && id in db ==>
                user == Some(UserEntry(db[id])) &&
                cache == old(cache)[UserKey(id) := Cached(UserEntry(db[id]), USER_TTL)]
    {
      var key := UserKey(id);
      user := Get(key);
      if user.None? {
        // synchronized (UserService.class): the re-check is a second read of the same key
        user := Get(key);
        if user.None? {
          var row := Select(id);
          if row.None? {
            cache := cache[key := Cached(BlankEntry, BLANK_TTL)];
            return None;
          }
          user := Some(UserEntry(row.value));
          var wasSet := SetIfAbsent(key, Cached(UserEntry(row.value), USER_TTL));
        }
      }
    }

    /**
     * randomLogin: for day i = 1..30 draw coin i and, when it is true, SETBIT the day key at
     * `offset`. An offset Redis refuses raises at the first true coin (`ok` false).
     */
    method RandomLogin(userId: int, offset: int, coins: seq<bool>) returns (ok: bool)
      requires |coins| == DAYS
      modifies this`bitmaps
      ensures ValidOffset(offset) ==> ok && bitmaps == LoginDays(old(bitmaps), offset, coins, DAYS)
      ensures !ValidOffset(offset) ==> bitmaps == old(bitmaps)
      ensures !ValidOffset(offset) ==> (ok <==> forall day :: 0 <= day < DAYS ==> !coins[day])
    {
      for i := 1 to DAYS + 1
        invariant ValidOffset(offset) ==> bitmaps == LoginDays(old(bitmaps), offset, coins, i - 1)
        invariant !ValidOffset(offset) ==> bitmaps == old(bitmaps)
        invariant !ValidOffset(offset) ==> forall day :: 0 <= day < i - 1 ==> !coins[day]
      {
        var date := DayKey(i);
        var login := coins[i - 1];
        if login {
          if !ValidOffset(offset) {
            return false;
          }
          bitmaps := SetBit(bitmaps, date, offset);
        }
      }
      return true;
    }

    /** countLoginUsers over the bitmaps held in Redis. */
    method CountLoginUsers() returns (loginUsers: nat)
      ensures loginUsers == LoginUsers(bitmaps)
    {
      loginUsers := CountLogins(bitmaps);
    }

    /** countContinuousLoginUsers as written, over the bitmaps held in Redis. */
    method CountContinuousLoginUsers() returns (r: Result<Report, Fault>)
      ensures r.Failure? <==> NullThrough(bitmaps, DAYS)
      ensures r.Success? ==> r.value == Report(PairsCount(bitmaps, DAYS), PairsIds(bitmaps, DAYS))
    {
      r := ContinuousLogins(bitmaps);
    }

    /** countContinuousLoginUsers with absent days read as empty, over the bitmaps held in Redis. */
    method CountContinuousLoginUsersSafe() returns (report: Report)
      ensures report == Report(PairsCount(bitmaps, DAYS), PairsIds(bitmaps, DAYS))
    {
      report := ContinuousLoginsSafe(bitmaps);
    }
  }
}
