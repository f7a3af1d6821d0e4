# UserService: cache-aside user store and daily-login bitmaps

A Dafny model of `UserService` in the `redis_20210511` module. The service does two jobs.

It keeps MySQL user rows and a Redis cache in step (cache-aside):
- `addUser`, `updateUser` and `deleteUser` write MySQL first. They touch Redis only when the statement affected a row.
- `findUserById` serves from Redis, falls back to MySQL, and caches what it found.
- `findUserById2` also caches a blank marker for a missing id (60 seconds). It caches a found row with set-if-absent (7 days).

It also tracks logins in June 2023 with one Redis bitmap per day (`20230601` … `20230630`):
- `randomLogin` sets a user's bit on the days a coin comes up true.
- `countLoginUsers` counts the users who logged in on any day.
- `countContinuousLoginUsers` counts, over each pair of adjacent days, the users present on both days, and lists them.

The model is imperative, like the service:
- `Service.UserService` is a class whose fields are the MySQL table (`db`), the string values in Redis (`cache`), the Redis bitmaps (`bitmaps`) and a counter of SELECTs sent to MySQL (`storeReads`). Each Java method is a method with a `modifies` clause, whose `ensures` give the whole new state.
- The three counting loops are module-level methods (`CountLogins`, `ContinuousLogins`, `ContinuousLoginsSafe`) over the bitmap value the service reads. Their loop invariants tie them to functions in `Tracker`, and the lemmas in `Tracker` state what those functions mean.

Modules:
- `Common`: `Option` and `Result`.
- `Keys`: the `user:<id>` cache key and the `202306dd` day key, with their round trips and injectivity.
- `Store`: the user table, what the mapper statements do to it, and the cache values.
- `Bitmaps`: Redis bit offsets versus `java.util.BitSet` indices, and the `nextSetBit` walk.
- `Tracker`: what the login tracker computes.
- `Service`: the class and the loops.
- `Scenarios`: short sessions on a fresh service that show the read paths and the two findings below.

Bit order:
- Redis `SETBIT` numbers offset 0 as the most significant bit of byte 0. `BitSet.valueOf` numbers index 0 as the least significant bit of byte 0.
- A bit written at offset k is therefore read back at index `Mirror(k)` (same byte, bit reversed). The model keeps this mapping explicit.
- Counts do not depend on it (`Tracker.LoginUsersCountsOffsets`, `Tracker.MeetCountsOffsets`).
- The numbers `countContinuousLoginUsers` reports are `Mirror(offset) + 1`, so offset 3 is reported as 5 (`Tracker.ReportedOffset`, `Scenarios.TwoDayReport`).

Behaviour of the code that the model keeps:
- `updateUser` and `deleteUser` return normally and change nothing when no row is affected.
- `deleteUser` takes a `User`, and the key it evicts is built from the whole object, not from its id (see Findings).
- A user present on two adjacent days is reported as `Mirror(offset) + 1`, not `offset + 1` (see Bit order above).
- `insertSelective` leaves out the columns the caller did not set, so MySQL fills them with their defaults. The row `addUser` re-reads and caches is the caller's object only when the caller set every column that has a default (`Store.InsertedRowIsCallerObject`).

## Model

| member | source | states |
|---|---|---|
| Keys.UserKey | redis_20210511/src/main/java/com/atguigu/redis/service/UserService.java:88 | every user cache key starts with the `user:` prefix and is longer than it |
| Keys.DecimalRoundTrip | redis_20210511/src/main/java/com/atguigu/redis/service/UserService.java:88 | the decimal text appended to `user:` parses back to the id, negative ids included |
| Keys.NatDigitsRoundTrip | redis_20210511/src/main/java/com/atguigu/redis/service/UserService.java:88 | the digit string of a natural number reads back as that number |
| Keys.UserKeyInjective | redis_20210511/src/main/java/com/atguigu/redis/service/UserService.java:56 | two ids share a cache key if and only if they are equal |
| Keys.OtherTextIsNotUserKey | redis_20210511/src/main/java/com/atguigu/redis/service/UserService.java:64 | `user:` followed by any text other than the decimal id is not that user's key |
| Keys.TwoDigitsValue | redis_20210511/src/main/java/com/atguigu/redis/service/UserService.java:159 | `%02d` gives two digits that read back as the day |
| Keys.DayKeyFormat | redis_20210511/src/main/java/com/atguigu/redis/service/UserService.java:159 | each day key has 8 characters, begins with `202306`, is all digits, and its last two read back as the day |
| Keys.DayKeyInjective | redis_20210511/src/main/java/com/atguigu/redis/service/UserService.java:183 | two days share a key if and only if they are the same day |
| Keys.DayKeyIsNotUserKey | redis_20210511/src/main/java/com/atguigu/redis/service/UserService.java:211 | no day key is ever a user cache key |
| Store.Merge | redis_20210511/src/main/java/com/atguigu/redis/service/UserService.java:70 | the selective update keeps the id, takes every column the caller set and keeps every column the caller left NULL |
| Store.MergeIsCallerObject | redis_20210511/src/main/java/com/atguigu/redis/service/UserService.java:73-76 | the re-read row that is cached equals the caller's object if and only if the caller set every column the stored row has |
| Store.InsertSelective | redis_20210511/src/main/java/com/atguigu/redis/service/UserService.java:50 | an existing id is refused with a duplicate-key error; otherwise exactly one row is added under the id, holding the caller's columns and the table's defaults for the rest, and every other row is unchanged |
| Store.InsertedRowIsCallerObject | redis_20210511/src/main/java/com/atguigu/redis/service/UserService.java:50-56 | the inserted row that addUser re-reads and caches equals the caller's object if and only if the caller set every column that has a default |
| Store.UpdateSelective | redis_20210511/src/main/java/com/atguigu/redis/service/UserService.java:70 | one row is affected if and only if the id exists; that row becomes the merge and nothing else changes |
| Store.DeleteByKey | redis_20210511/src/main/java/com/atguigu/redis/service/UserService.java:62 | one row is affected if and only if the id exists; afterwards the id is gone and every other row is unchanged |
| Store.SelectByKey | redis_20210511/src/main/java/com/atguigu/redis/service/UserService.java:95 | a row is returned if and only if the id exists, and it is the row stored under that id |
| Bitmaps.Mirror | redis_20210511/src/main/java/com/atguigu/redis/service/UserService.java:188 | `BitSet.valueOf` reads Redis offset k in the same byte with the bit position reversed |
| Bitmaps.MirrorInvolution | redis_20210511/src/main/java/com/atguigu/redis/service/UserService.java:188 | mirroring twice gives back the offset, so no two offsets are read as the same index |
| Bitmaps.MirrorSetMember | redis_20210511/src/main/java/com/atguigu/redis/service/UserService.java:217 | index x is set in the read-back BitSet if and only if offset Mirror(x) is set in Redis |
| Bitmaps.MirrorSetCard | redis_20210511/src/main/java/com/atguigu/redis/service/UserService.java:193 | reading a bitmap back changes no cardinality |
| Bitmaps.MirrorSetDistributes | redis_20210511/src/main/java/com/atguigu/redis/service/UserService.java:218-219 | AND and OR of read-back BitSets equal the read-back of the AND and OR of the bitmaps |
| Bitmaps.MirrorSetMonotone | redis_20210511/src/main/java/com/atguigu/redis/service/UserService.java:189 | more bits in Redis never means fewer bits read back |
| Bitmaps.Min | redis_20210511/src/main/java/com/atguigu/redis/service/UserService.java:226 | `nextSetBit(0)` finds a set bit below which none is set |
| Bitmaps.Reported | redis_20210511/src/main/java/com/atguigu/redis/service/UserService.java:226-229 | the walk reports as many numbers as there are set bits |
| Bitmaps.ReportedAscending | redis_20210511/src/main/java/com/atguigu/redis/service/UserService.java:226-229 | every reported number is a set bit plus one, and the numbers strictly ascend |
| Bitmaps.ReportedOnce | redis_20210511/src/main/java/com/atguigu/redis/service/UserService.java:226-229 | x + 1 is reported exactly once if bit x is set and never otherwise |
| Service.ListSetBits | redis_20210511/src/main/java/com/atguigu/redis/service/UserService.java:226-229 | the `nextSetBit` loop appends exactly the walk's numbers, in order |
| Tracker.LoginDaysAt | redis_20210511/src/main/java/com/atguigu/redis/service/UserService.java:157-168 | after n days of the simulation a key holds its old bits plus `offset` exactly when it is the key of a day whose coin was true |
| Tracker.LoggedOnDay | redis_20210511/src/main/java/com/atguigu/redis/service/UserService.java:159-163 | the key of day d has been logged on within n days if and only if d <= n and coin d is true |
| Tracker.LoggedOnOnlyDayKeys | redis_20210511/src/main/java/com/atguigu/redis/service/UserService.java:159 | a key that is none of the 30 day keys is never logged on |
| Tracker.RandomLoginOnlySetsOffset | redis_20210511/src/main/java/com/atguigu/redis/service/UserService.java:157-168 | the simulation removes no key, clears no bit, and sets no bit other than `offset` |
| Tracker.RandomLoginDayBits | redis_20210511/src/main/java/com/atguigu/redis/service/UserService.java:161-164 | day d gains bit `offset` exactly when coin d is true, and its key exists afterwards exactly when it did before or the coin was true |
| Tracker.RandomLoginOtherKeys | redis_20210511/src/main/java/com/atguigu/redis/service/UserService.java:156-169 | a key outside the 30 day keys is left exactly as it was |
| Tracker.RandomLoginIdempotent | redis_20210511/src/main/java/com/atguigu/redis/service/UserService.java:156-169 | replaying the same coin flips for the same offset changes nothing |
| Service.UserService.RandomLogin | redis_20210511/src/main/java/com/atguigu/redis/service/UserService.java:156-169 | with an offset Redis accepts, the bitmaps become the 30-day simulation of the coins; an offset Redis refuses fails at the first true coin and leaves the bitmaps unchanged |
| Tracker.UnionThroughStep | redis_20210511/src/main/java/com/atguigu/redis/service/UserService.java:187-190 | one more day ORs in its BitSet, or nothing when its key is absent |
| Tracker.UnionThroughMember | redis_20210511/src/main/java/com/atguigu/redis/service/UserService.java:181-191 | an index is in the OR of days 1..n if and only if some of those days has it |
| Tracker.UnionThroughMirrors | redis_20210511/src/main/java/com/atguigu/redis/service/UserService.java:181-191 | the OR of the read-back days is the read-back of the OR of the offsets |
| Tracker.LoginUsersCountsOffsets | redis_20210511/src/main/java/com/atguigu/redis/service/UserService.java:193 | the count is the number of distinct offsets set on some day of June |
| Tracker.LoginUsersNoDays | redis_20210511/src/main/java/com/atguigu/redis/service/UserService.java:187 | with every day key absent the count is 0 |
| Tracker.UnionThroughMonotone | redis_20210511/src/main/java/com/atguigu/redis/service/UserService.java:189 | more bits in Redis give a larger or equal OR |
| Tracker.LoginUsersMonotone | redis_20210511/src/main/java/com/atguigu/redis/service/UserService.java:177-196 | adding bits never lowers the count |
| Tracker.RandomLoginNeverLowersCount | redis_20210511/src/main/java/com/atguigu/redis/service/UserService.java:156-196 | a login simulation never lowers the count |
| Tracker.UnionThroughOneBit | redis_20210511/src/main/java/com/atguigu/redis/service/UserService.java:181-191 | with one bit on one day, the OR holds that bit's index from that day on and nothing before |
| Tracker.LoginUsersOneBit | redis_20210511/src/main/java/com/atguigu/redis/service/UserService.java:177-196 | one bit set on one day, and nothing else stored, counts exactly one user |
| Service.CountLogins | redis_20210511/src/main/java/com/atguigu/redis/service/UserService.java:179-193 | the loop's OR has the cardinality of the OR of all present days |
| Service.UserService.CountLoginUsers | redis_20210511/src/main/java/com/atguigu/redis/service/UserService.java:177-196 | countLoginUsers over the stored bitmaps gives that cardinality |
| Tracker.PairsStep | redis_20210511/src/main/java/com/atguigu/redis/service/UserService.java:216-233 | one more day adds the size of the AND of the previous and current BitSets to the count and its walk to the list |
| Tracker.FirstDayContributesNothing | redis_20210511/src/main/java/com/atguigu/redis/service/UserService.java:207-219 | day 1 adds nothing to the count or the list |
| Tracker.PairsIdsLength | redis_20210511/src/main/java/com/atguigu/redis/service/UserService.java:221-229 | the list has exactly as many entries as the count |
| Tracker.AppendReportedCount | redis_20210511/src/main/java/com/atguigu/redis/service/UserService.java:226-229 | appending a pair's walk adds one occurrence of x + 1 exactly when bit x is in the pair |
| Tracker.PairsIdsMultiplicity | redis_20210511/src/main/java/com/atguigu/redis/service/UserService.java:223-229 | index x + 1 appears once for every pair of adjacent days both holding x, so there is no deduplication across pairs |
| Tracker.MeetCountsOffsets | redis_20210511/src/main/java/com/atguigu/redis/service/UserService.java:218-221 | each pair's count is the number of offsets set on both days |
| Tracker.ReportedOffset | redis_20210511/src/main/java/com/atguigu/redis/service/UserService.java:228 | a single offset is reported as its mirrored index plus one; offset 3 is reported as 5 |
| Tracker.TwoDayMeet | redis_20210511/src/main/java/com/atguigu/redis/service/UserService.java:218-219 | when only days 1 and 2 hold an offset, only day 2 meets its previous day |
| Tracker.TwoDayStreak | redis_20210511/src/main/java/com/atguigu/redis/service/UserService.java:209-234 | when only days 1 and 2 hold an offset, the month has one pair and one reported number |
| Tracker.TwoDayNoNull | redis_20210511/src/main/java/com/atguigu/redis/service/UserService.java:215-233 | those bitmaps never leave `prevLogin` null before a present day |
| Tracker.NullThroughWitness | redis_20210511/src/main/java/com/atguigu/redis/service/UserService.java:215-233 | the loop dereferences a null `prevLogin` if and only if some absent day is followed by a present one |
| Tracker.NullAtFails | redis_20210511/src/main/java/com/atguigu/redis/service/UserService.java:218 | an absent day followed by a present one makes the month fail |
| Tracker.NullThroughUpTo | redis_20210511/src/main/java/com/atguigu/redis/service/UserService.java:218 | once a dereference has happened by day n it has happened by any later day |
| Tracker.NullDerefOnDayTwo | redis_20210511/src/main/java/com/atguigu/redis/service/UserService.java:218 | a month whose only key is day 2 dereferences null |
| Service.ContinuousLogins | redis_20210511/src/main/java/com/atguigu/redis/service/UserService.java:203-234 | the loop as written fails if and only if an absent day is followed by a present one; otherwise it returns the pair count and the list of the pair-by-pair walks |
| Service.ContinuousLoginsSafe | redis_20210511/src/main/java/com/atguigu/redis/service/UserService.java:203-234 | with absent days read as empty, the loop always returns the pair count and the list |
| Service.UserService.CountContinuousLoginUsers | redis_20210511/src/main/java/com/atguigu/redis/service/UserService.java:201-237 | countContinuousLoginUsers over the stored bitmaps, as written |
| Service.UserService.CountContinuousLoginUsersSafe | redis_20210511/src/main/java/com/atguigu/redis/service/UserService.java:201-237 | countContinuousLoginUsers over the stored bitmaps, with the null case read as empty |
| Service.UserService.constructor | redis_20210511/src/main/java/com/atguigu/redis/service/UserService.java:25-41 | a service over the given table, cache and bitmaps that has sent no SELECT yet |
| Service.UserService.Select | redis_20210511/src/main/java/com/atguigu/redis/service/UserService.java:95 | a SELECT returns the stored row if and only if the id exists, and counts one store read |
| Service.UserService.Get | redis_20210511/src/main/java/com/atguigu/redis/service/UserService.java:91 | a cache read returns a value if and only if the key is present, and that value is the stored one |
| Service.UserService.SetIfAbsent | redis_20210511/src/main/java/com/atguigu/redis/service/UserService.java:136 | the value is written if and only if the key was absent; an existing entry is never overwritten |
| Service.UserService.AddUser | redis_20210511/src/main/java/com/atguigu/redis/service/UserService.java:48-59 | a duplicate id changes nothing; otherwise the row (the caller's columns over the table's defaults) is inserted, re-read once, and the re-read row is cached under `user:<id>` with no expiry |
| Service.UserService.UpdateUser | redis_20210511/src/main/java/com/atguigu/redis/service/UserService.java:69-78 | a missing id changes nothing and raises nothing; otherwise the merged row is stored, re-read once and cached under `user:<id>` |
| Service.UserService.DeleteUser | redis_20210511/src/main/java/com/atguigu/redis/service/UserService.java:61-67 | a missing id changes nothing; otherwise the row is deleted and only `user:` followed by the argument's text is evicted |
| Service.UserService.DeleteUserById | redis_20210511/src/main/java/com/atguigu/redis/service/UserService.java:61-67 | a missing id changes nothing; otherwise the row is deleted and exactly `user:<id>` is evicted |
| Service.UserService.FindUserById | redis_20210511/src/main/java/com/atguigu/redis/service/UserService.java:86-106 | a hit returns the cached value and reads no row; a miss reads one row, and a found row is cached with no expiry while a missing one caches nothing |
| Service.UserService.FindUserById2 | redis_20210511/src/main/java/com/atguigu/redis/service/UserService.java:115-142 | a hit returns the cached value and reads no row; a miss reads one row, then caches the blank marker for 60 seconds and returns null, or caches the row for 7 days and returns it |
| Scenarios.StaleEntryAfterDelete | redis_20210511/src/main/java/com/atguigu/redis/service/UserService.java:48-106 | after addUser and deleteUser, the row is gone but findUserById still returns the deleted row from the cache |
| Scenarios.NoStaleEntryAfterDeleteById | redis_20210511/src/main/java/com/atguigu/redis/service/UserService.java:48-106 | deleting by the id's own key leaves nothing for findUserById to return |
| Scenarios.PlainReadPenetrates | redis_20210511/src/main/java/com/atguigu/redis/service/UserService.java:86-106 | two findUserById calls for a missing id both reach MySQL and cache nothing |
| Scenarios.GuardedReadCachesMiss | redis_20210511/src/main/java/com/atguigu/redis/service/UserService.java:115-142 | in the model, two findUserById2 calls for a missing id reach MySQL once, because the model reads the blank marker back as a hit; the Java code misses on the marker instead (see Left out) |
| Scenarios.NullDerefOnAbsentDay | redis_20210511/src/main/java/com/atguigu/redis/service/UserService.java:213-218 | with only day 2 stored, countContinuousLoginUsers fails with a null dereference |
| Scenarios.TwoDayReport | redis_20210511/src/main/java/com/atguigu/redis/service/UserService.java:201-237 | with offset 3 set on days 1 and 2, the count is 1 and the list is [5] |

## Left out

- I/O to MySQL and Redis: the mapper and the two Redis templates are replaced by the maps `db`, `cache` and `bitmaps`. The `UserMapper` interface and the `User` entity are not part of this model.
- `addUser` re-reads the row with `selectByIdAndOffset(id)` (line 54), a statement not part of this model. It is modelled as a read of the row by id.
- `deleteByPrimaryKey` receives the `User` argument itself (line 62). It is modelled as deleting the row of that user's id.
- Store.InsertSelective: the id is an `int`, so a NULL id is not modelled. This covers both a key generated by MySQL on insert and `findUserById(null)`, which would read the key `user:null`.
- Service.UserService.DeleteUser: the key it evicts is `user:` followed by the text of the `User` argument (line 64). That text comes from `User.toString`, which is not part of this model, so it is the parameter `rendered`.
- The duplicate-key error of `insertSelective` is modelled as the result `duplicate`, which leaves everything unchanged, instead of an exception.
- The `synchronized` block of `findUserById2` (line 124) and all concurrency. The model is sequential, so the re-check under the lock is a second read of the same key and always misses after a first miss.
- `java.util.Random` (lines 38, 161): the 30 coin flips are the input `coins`.
- The `System.out.println` lines (166, 195, 236): the counts and the `userIds` list are returned instead.
- A Redis failure after a successful MySQL write: the code does not catch it, and the model has no failing Redis.
- TTL expiry and the clock: a cache entry records its TTL (none, 60 seconds, 7 days) but never expires.
- Serialisation: the model reads the blank marker back as a cache hit (`BlankEntry`) and a bitmap value as its set of offsets. The code does not do this for the marker. It writes `""` through `StringRedisTemplate` (line 132) and reads it through `RedisTemplate` with a `(User)` cast (line 120). A value serializer that turns an empty value into null makes that read a miss. One that returns the String `""` makes the cast throw `ClassCastException`. With the default key serializer of `RedisTemplate`, the write and the read use different Redis keys. So `findUserById2` never answers from the marker, and `Scenarios.GuardedReadCachesMiss` shows the model's behaviour, not the code's.
- Service.UserService.FindUserById2: a cached blank marker is returned as a hit (`Some(BlankEntry)`), which the code never does (see Serialisation above); the code would miss and query MySQL again.
- `simulateLogin` (lines 147-153): it calls `randomLogin` once per row of `selectAll`, whose order is not part of this model.
- Java `int` overflow of the counters: the counts are modelled as unbounded naturals. A single `cardinality()` can pass 2^31 - 1 once a bitmap is larger than 256 MB. The sum at line 224 can pass it with much smaller bitmaps, for example 29 pairs that each share about 10^8 bits. The model assumes user offsets stay far below these sizes, as they do for per-user positions in a user table.
- A selective update in which the caller sets no column: the mapper's behaviour for an empty SET clause is not part of this model. `Store.UpdateSelective` treats it as a one-row update that changes nothing.
- Redis `SETBIT` refuses offsets outside [0, 2^32). `randomLogin` then raises at the first true coin; the model returns `false` and leaves the bitmaps unchanged.

## Findings

| source | as written | input that shows it | evidently intended | confidence | as-written member | corrected member |
|---|---|---|---|---|---|---|
| redis_20210511/src/main/java/com/atguigu/redis/service/UserService.java:218 | an absent day sets `prevLogin` to null (lines 215, 233), and the next present day calls `prevLogin.clone()` | no key for 20230601, key 20230602 holding any bit | an absent day is read as an empty BitSet, so the pair contributes nothing | high, not executed | Scenarios.NullDerefOnAbsentDay | Service.ContinuousLoginsSafe |
| redis_20210511/src/main/java/com/atguigu/redis/service/UserService.java:64 | the evicted key is `user:` followed by the text of the `User` argument, not `user:` followed by its id | addUser of user 1, then deleteUser of that user, whose text is not `1`; findUserById(1) still returns the deleted user | evict `user:<id>`, the key addUser and updateUser write | medium, not executed | Scenarios.StaleEntryAfterDelete | Service.UserService.DeleteUserById |
