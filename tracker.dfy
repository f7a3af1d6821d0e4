/**
 * What the login tracker computes, stated over the Redis bitmaps it reads and writes.
 * The methods of Service.UserService are proved against these definitions.
 */
module Tracker {
  import opened Common
  import opened Keys
  import opened Bitmaps

  /** The bitmap part of Redis: key to the set of offsets whose bit is 1. */
  type Bits = map<string, set<nat>>

  /** The bits of `key`; an absent key reads as all zero. */
  function BitsAt(bm: Bits, key: string): set<nat>
  {
    if key in bm then bm[key] else {}
  }

  /** Redis accepts SETBIT offsets in [0, 2^32). */
  const OFFSET_LIMIT: nat := 0x1_0000_0000

  predicate ValidOffset(offset: int) { 0 <= offset < OFFSET_LIMIT }

  /** SETBIT key offset 1 (creating the key when it is absent). */
  function SetBit(bm: Bits, key: string, offset: nat): Bits
  {
    bm[key := BitsAt(bm, key) + {offset}]
  }

  // ---------------------------------------------------------------- randomLogin

  /** The bitmaps after the first `n` days of a login simulation for `offset`. */
  function LoginDays(bm: Bits, offset: nat, coins: seq<bool>, n: nat): Bits
    requires n <= |coins| && n <= DAYS
  {
    if n == 0 then bm
    else
      var before := LoginDays(bm, offset, coins, n - 1);
      if coins[n - 1] then SetBit(before, DayKey(n), offset) else before
  }

  /** `key` is the key of one of the first `n` days whose coin came up true. */
  predicate LoggedOn(coins: seq<bool>, n: nat, key: string)
    requires n <= |coins| && n <= DAYS
  {
    n > 0 && (LoggedOn(coins, n - 1, key) || (coins[n - 1] && DayKey(n) == key))
  }

  /** Key by key, a login simulation adds `offset` to the days logged on and nothing else. */
  lemma {:induction false} LoginDaysAt(bm: Bits, offset: nat, coins: seq<bool>, n: nat, key: string)
    requires n <= |coins| && n <= DAYS
    ensures key in LoginDays(bm, offset, coins, n) <==> key in bm || LoggedOn(coins, n, key)
    ensures BitsAt(LoginDays(bm, offset, coins, n), key)
            == BitsAt(bm, key) + (if LoggedOn(coins, n, key) then {offset} else {})
  {
    if n > 0 {
      LoginDaysAt(bm, offset, coins, n - 1, key);
    }
  }

  lemma {:induction false} LoggedOnDay(coins: seq<bool>, n: nat, day: nat)
    requires n <= |coins| && n <= DAYS && 1 <= day <= DAYS
    ensures LoggedOn(coins, n, DayKey(day)) <==> day <= n && coins[day - 1]
  {
    if n > 0 {
      LoggedOnDay(coins, n - 1, day);
      DayKeyInjective(n, day);
    }
  }

  lemma {:induction false} LoggedOnOnlyDayKeys(coins: seq<bool>, n: nat, key: string)
    requires n <= |coins| && n <= DAYS
    requires forall day :: 1 <= day <= DAYS ==> DayKey(day) != key
    ensures !LoggedOn(coins, n, key)
  {
    if n > 0 {
      LoggedOnOnlyDayKeys(coins, n - 1, key);
    }
  }

  /** Login simulation never clears a bit and never sets any bit other than `offset`. */
  lemma RandomLoginOnlySetsOffset(bm: Bits, offset: nat, coins: seq<bool>)
    requires |coins| == DAYS
    ensures var after := LoginDays(bm, offset, coins, DAYS);
            bm.Keys <= after.Keys &&
            (forall key :: key in bm ==> bm[key] <= after[key]) &&
            (forall key :: key in after ==> after[key] - BitsAt(bm, key) <= {offset})
  {
    var after := LoginDays(bm, offset, coins, DAYS);
    forall key | key in bm + after
      ensures key in bm ==> key in after && bm[key] <= after[key]
      ensures key in after ==> after[key] - BitsAt(bm, key) <= {offset}
    {
      LoginDaysAt(bm, offset, coins, DAYS, key);
    }
  }

  /** Day `day` gains bit `offset` exactly when its coin is true. */
  lemma RandomLoginDayBits(bm: Bits, offset: nat, coins: seq<bool>, day: nat)
    requires |coins| == DAYS && 1 <= day <= DAYS
    ensures BitsAt(LoginDays(bm, offset, coins, DAYS), DayKey(day))
            == BitsAt(bm, DayKey(day)) + (if coins[day - 1] then {offset} else {})
    ensures DayKey(day) in LoginDays(bm, offset, coins, DAYS) <==> DayKey(day) in bm || coins[day - 1]
  {
    LoginDaysAt(bm, offset, coins, DAYS, DayKey(day));
    LoggedOnDay(coins, DAYS, day);
  }

  /** A key that is not one of the 30 day keys is left exactly as it was. */
  lemma RandomLoginOtherKeys(bm: Bits, offset: nat, coins: seq<bool>, key: string)
    requires |coins| == DAYS
    requires forall day :: 1 <= day <= DAYS ==> DayKey(day) != key
    ensures key in LoginDays(bm, offset, coins, DAYS) <==> key in bm
    ensures key in bm ==> LoginDays(bm, offset, coins, DAYS)[key] == bm[key]
  {
    LoginDaysAt(bm, offset, coins, DAYS, key);
    LoggedOnOnlyDayKeys(coins, DAYS, key);
  }

  /** Replaying the same coin flips changes nothing more. */
  lemma RandomLoginIdempotent(bm: Bits, offset: nat, coins: seq<bool>)
    requires |coins| == DAYS
    ensures var once := LoginDays(bm, offset, coins, DAYS);
            LoginDays(once, offset, coins, DAYS) == once
  {
    var once := LoginDays(bm, offset, coins, DAYS);
    var twice := LoginDays(once, offset, coins, DAYS);
    forall key | key in once + twice
      ensures key in once <==> key in twice
      ensures key in once ==> twice[key] == once[key]
    {
      LoginDaysAt(bm, offset, coins, DAYS, key);
      LoginDaysAt(once, offset, coins, DAYS, key);
    }
  }

  // ---------------------------------------------------------------- countLoginUsers

  /** What `BitSet.valueOf` gives for the day's bitmap, or null when the key is absent. */
  function ReadDay(bm: Bits, day: nat): Option<set<nat>>
    requires 1 <= day <= DAYS
  {
    if DayKey(day) in bm then Some(MirrorSet(bm[DayKey(day)])) else None
  }

  /** The day's BitSet, with an absent day read as an empty one. */
  function DayOrEmpty(bm: Bits, day: nat): set<nat>
    requires 1 <= day <= DAYS
  {
    MirrorSet(BitsAt(bm, DayKey(day)))
  }

  /** The OR of the BitSets of days 1..n. */
  function UnionThrough(bm: Bits, n: nat): set<nat>
    requires n <= DAYS
  {
    if n == 0 then {} else UnionThrough(bm, n - 1) + DayOrEmpty(bm, n)
  }

  /** One more day ORs in that day's BitSet, or nothing when its key is absent. */
  lemma UnionThroughStep(bm: Bits, n: nat)
    requires 1 <= n <= DAYS
    ensures UnionThrough(bm, n) ==
            UnionThrough(bm, n - 1) + (if DayKey(n) in bm then MirrorSet(bm[DayKey(n)]) else {})
  {
    if DayKey(n) !in bm {
      assert DayOrEmpty(bm, n) == {};
    }
  }

  /** The cardinality countLoginUsers reports. */
  function LoginUsers(bm: Bits): nat
  {
    |UnionThrough(bm, DAYS)|
  }

  /** A BitSet index is in the union exactly when some day of 1..n has it. */
  lemma {:induction false} UnionThroughMember(bm: Bits, n: nat, x: nat)
    requires n <= DAYS
    ensures x in UnionThrough(bm, n) <==> exists day :: 1 <= day <= n && x in DayOrEmpty(bm, day)
  {
    if n > 0 {
      UnionThroughMember(bm, n - 1, x);
    }
  }

  /** The OR of the offsets themselves, days 1..n. */
  function OffsetsThrough(bm: Bits, n: nat): set<nat>
    requires n <= DAYS
  {
    if n == 0 then {} else OffsetsThrough(bm, n - 1) + BitsAt(bm, DayKey(n))
  }

  lemma {:induction false} UnionThroughMirrors(bm: Bits, n: nat)
    requires n <= DAYS
    ensures UnionThrough(bm, n) == MirrorSet(OffsetsThrough(bm, n))
  {
    if n > 0 {
      UnionThroughMirrors(bm, n - 1);
      MirrorSetDistributes(OffsetsThrough(bm, n - 1), BitsAt(bm, DayKey(n)));
    }
  }

  /** The count is the number of distinct offsets set on some day: bit order does not matter. */
  lemma LoginUsersCountsOffsets(bm: Bits)
    ensures LoginUsers(bm) == |OffsetsThrough(bm, DAYS)|
  {
    UnionThroughMirrors(bm, DAYS);
    MirrorSetCard(OffsetsThrough(bm, DAYS));
  }

  /** With no day key present the count is 0. */
  lemma LoginUsersNoDays(bm: Bits)
    requires forall day :: 1 <= day <= DAYS ==> DayKey(day) !in bm
    ensures LoginUsers(bm) == 0
  {
    forall x: nat ensures x !in UnionThrough(bm, DAYS) {
      UnionThroughMember(bm, DAYS, x);
    }
    assert UnionThrough(bm, DAYS) == {};
  }

  lemma {:induction false} UnionThroughMonotone(bm: Bits, bm': Bits, n: nat)
    requires n <= DAYS
    requires forall key :: key in bm ==> key in bm' && bm[key] <= bm'[key]
    ensures UnionThrough(bm, n) <= UnionThrough(bm', n)
  {
    if n > 0 {
      UnionThroughMonotone(bm, bm', n - 1);
      MirrorSetMonotone(BitsAt(bm, DayKey(n)), BitsAt(bm', DayKey(n)));
    }
  }

  lemma SubsetCard(a: set<nat>, b: set<nat>)
    requires a <= b
    ensures |a| <= |b|
  {
    assert b == a + (b - a);
  }

  /** Setting more bits never lowers the count. */
  lemma LoginUsersMonotone(bm: Bits, bm': Bits)
    requires forall key :: key in bm ==> key in bm' && bm[key] <= bm'[key]
    ensures LoginUsers(bm) <= LoginUsers(bm')
  {
    UnionThroughMonotone(bm, bm', DAYS);
    SubsetCard(UnionThrough(bm, DAYS), UnionThrough(bm', DAYS));
  }

  /** So a login simulation never lowers the count of users who logged in. */
  lemma RandomLoginNeverLowersCount(bm: Bits, offset: nat, coins: seq<bool>)
    requires |coins| == DAYS
    ensures LoginUsers(bm) <= LoginUsers(LoginDays(bm, offset, coins, DAYS))
  {
    RandomLoginOnlySetsOffset(bm, offset, coins);
    LoginUsersMonotone(bm, LoginDays(bm, offset, coins, DAYS));
  }

  lemma {:induction false} UnionThroughOneBit(day: nat, offset: nat, n: nat)
    requires 1 <= day <= DAYS && n <= DAYS
    ensures UnionThrough(map[DayKey(day) := {offset}], n) == if day <= n then {Mirror(offset)} else {}
  {
    if n > 0 {
      UnionThroughOneBit(day, offset, n - 1);
      DayKeyInjective(day, n);
      assert MirrorSet({offset}) == {Mirror(offset)};
    }
  }

  /** One bit set on one day, nothing else stored: exactly one user logged in. */
  lemma LoginUsersOneBit(day: nat, offset: nat)
    requires 1 <= day <= DAYS
    ensures LoginUsers(map[DayKey(day) := {offset}]) == 1
  {
    UnionThroughOneBit(day, offset, DAYS);
  }

  // ---------------------------------------------------------------- countContinuousLoginUsers

  /** What `prevLogin` holds when day `day` is processed: an empty BitSet on day 1. */
  function PrevLogin(bm: Bits, day: nat): Option<set<nat>>
    requires 1 <= day <= DAYS
  {
    if day == 1 then Some({}) else ReadDay(bm, day - 1)
  }

  /** BitSet indices set on both the day before `day` and on `day` (absent days empty). */
  function Meet(bm: Bits, day: nat): set<nat>
    requires 1 <= day <= DAYS
  {
    (if day == 1 then {} else DayOrEmpty(bm, day - 1)) * DayOrEmpty(bm, day)
  }

  /** The sum over days 1..n of |Meet|. */
  function PairsCount(bm: Bits, n: nat): nat
    requires n <= DAYS
  {
    if n == 0 then 0 else PairsCount(bm, n - 1) + |Meet(bm, n)|
  }

  /** The reported numbers of days 1..n, day after day, without deduplication. */
  ghost function PairsIds(bm: Bits, n: nat): seq<int>
    requires n <= DAYS
  {
    if n == 0 then [] else PairsIds(bm, n - 1) + Reported(Meet(bm, n))
  }

  /** Number of days among 1..n on which BitSet index `x` was set that day and the day before. */
  function Streak(bm: Bits, x: nat, n: nat): nat
    requires n <= DAYS
  {
    if n == 0 then 0 else Streak(bm, x, n - 1) + (if x in Meet(bm, n) then 1 else 0)
  }

  /** One more day adds the meet of the previous day's BitSet with this day's. */
  lemma PairsStep(bm: Bits, n: nat, prev: set<nat>, cur: set<nat>)
    requires 1 <= n <= DAYS
    requires prev == if n == 1 then {} else DayOrEmpty(bm, n - 1)
    requires cur == if DayKey(n) in bm then MirrorSet(bm[DayKey(n)]) else {}
    ensures DayOrEmpty(bm, n) == cur
    ensures PairsCount(bm, n) == PairsCount(bm, n - 1) + |prev * cur|
    ensures PairsIds(bm, n) == PairsIds(bm, n - 1) + Reported(prev * cur)
  {
    assert Meet(bm, n) == prev * cur;
  }

  /** Day 1 is compared with an empty BitSet and contributes nothing. */
  lemma FirstDayContributesNothing(bm: Bits)
    ensures PairsCount(bm, 1) == 0 && PairsIds(bm, 1) == []
  {
    assert Meet(bm, 1) == {};
  }

  /** The list holds exactly as many numbers as the count. */
  lemma {:induction false} PairsIdsLength(bm: Bits, n: nat)
    requires n <= DAYS
    ensures |PairsIds(bm, n)| == PairsCount(bm, n)
  {
    if n > 0 {
      PairsIdsLength(bm, n - 1);
      var meet := Meet(bm, n);
      assert PairsIds(bm, n) == PairsIds(bm, n - 1) + Reported(meet);
      assert |Reported(meet)| == |meet|;
    }
  }

  /** Appending a walk adds one occurrence of x + 1 exactly when bit x is set. */
  lemma AppendReportedCount(before: seq<int>, s: set<nat>, after: seq<int>, x: nat, k: nat)
    requires after == before + Reported(s)
    requires multiset(before)[x + 1] == k
    ensures multiset(after)[x + 1] == k + (if x in s then 1 else 0)
  {
    ReportedOnce(s, x);
    assert multiset(after) == multiset(before) + multiset(Reported(s));
  }

  /** One more day appends that day's walk to the list. */
  lemma PairsIdsUnfold(bm: Bits, n: nat)
    requires 1 <= n <= DAYS
    ensures PairsIds(bm, n) == PairsIds(bm, n - 1) + Reported(Meet(bm, n))
  {
  }

  /** A user logged in on k adjacent-day pairs is reported k times, not once. */
  lemma {:induction false} PairsIdsMultiplicity(bm: Bits, n: nat, x: nat)
    requires n <= DAYS
    ensures multiset(PairsIds(bm, n))[x + 1] == Streak(bm, x, n)
  {
    if n > 0 {
      var before, meet, k := PairsIds(bm, n - 1), Meet(bm, n), Streak(bm, x, n - 1);
      PairsIdsMultiplicity(bm, n - 1, x);
      PairsIdsUnfold(bm, n);
      AppendReportedCount(before, meet, PairsIds(bm, n), x, k);
      assert Streak(bm, x, n) == k + (if x in meet then 1 else 0);
    }
  }

  /** Each pair's count is the number of offsets set on both days: bit order does not matter. */
  lemma MeetCountsOffsets(bm: Bits, day: nat)
    requires 2 <= day <= DAYS
    ensures |Meet(bm, day)| == |BitsAt(bm, DayKey(day - 1)) * BitsAt(bm, DayKey(day))|
  {
    MirrorSetDistributes(BitsAt(bm, DayKey(day - 1)), BitsAt(bm, DayKey(day)));
    MirrorSetCard(BitsAt(bm, DayKey(day - 1)) * BitsAt(bm, DayKey(day)));
  }

  /** A bitmap offset is reported as its mirrored index plus one, e.g. offset 3 as 5. */
  lemma ReportedOffset(offset: nat)
    ensures Reported(MirrorSet({offset})) == [Mirror(offset) + 1]
    ensures Reported(MirrorSet({3})) == [5]
  {
    assert MirrorSet({offset}) == {Mirror(offset)};
    assert MirrorSet({3}) == {4};
  }

  /** Days 1 and 2 both hold `offset`, and no other key is stored. */
  function TwoDayBits(offset: nat): Bits
  {
    map[DayKey(1) := {offset}, DayKey(2) := {offset}]
  }

  /** Only day 2 meets its previous day, in the mirrored index of `offset`. */
  lemma TwoDayMeet(offset: nat, day: nat)
    requires 1 <= day <= DAYS
    ensures Meet(TwoDayBits(offset), day) == if day == 2 then {Mirror(offset)} else {}
  {
    var bm := TwoDayBits(offset);
    DayKeyInjective(day, 1);
    DayKeyInjective(day, 2);
    if day == 2 {
      assert MirrorSet({offset}) == {Mirror(offset)};
    } else if day > 2 {
      assert DayOrEmpty(bm, day) == {};
    }
  }

  /** The month of TwoDayBits: one pair, one reported number, the mirrored index plus one. */
  lemma {:induction false} TwoDayStreak(offset: nat, n: nat)
    requires n <= DAYS
    ensures PairsCount(TwoDayBits(offset), n) == (if n >= 2 then 1 else 0)
    ensures PairsIds(TwoDayBits(offset), n) == (if n >= 2 then [Mirror(offset) + 1] else [])
  {
    if n > 0 {
      var bm := TwoDayBits(offset);
      TwoDayStreak(offset, n - 1);
      TwoDayMeet(offset, n);
      assert PairsIds(bm, n) == PairsIds(bm, n - 1) + Reported(Meet(bm, n));
      if n == 2 {
        ReportedOffset(offset);
        assert MirrorSet({offset}) == {Mirror(offset)};
      } else {
        assert Reported(Meet(bm, n)) == [];
      }
    }
  }

  /** On day `day` the loop clones a null `prevLogin`. */
  predicate NullAt(bm: Bits, day: nat)
    requires 1 <= day <= DAYS
  {
    PrevLogin(bm, day).None? && DayKey(day) in bm
  }

  /** Some day of 1..n clones a null `prevLogin`. */
  predicate NullThrough(bm: Bits, n: nat)
    requires n <= DAYS
  {
    n > 0 && (NullThrough(bm, n - 1) || NullAt(bm, n))
  }

  /** The dereference happens exactly when an absent day is followed by a present one. */
  lemma {:induction false} NullThroughWitness(bm: Bits, n: nat)
    requires n <= DAYS
    ensures NullThrough(bm, n) <==>
            exists day :: 1 <= day < n && DayKey(day) !in bm && DayKey(day + 1) in bm
  {
    if n > 0 {
      NullThroughWitness(bm, n - 1);
      if NullAt(bm, n) {
        assert DayKey(n - 1) !in bm && DayKey(n - 1 + 1) in bm;
      }
    }
  }

  /** TwoDayBits has no absent day followed by a present one, so the loop never fails on it. */
  lemma TwoDayNoNull(offset: nat)
    ensures !NullThrough(TwoDayBits(offset), DAYS)
  {
    var bm := TwoDayBits(offset);
    NullThroughWitness(bm, DAYS);
    forall day | 1 <= day < DAYS && DayKey(day + 1) in bm
      ensures DayKey(day) in bm
    {
      DayKeyInjective(day + 1, 1);
      DayKeyInjective(day + 1, 2);
    }
  }

  /** An absent day followed by a present one makes the whole month fail. */
  lemma NullAtFails(bm: Bits, n: nat)
    requires 1 < n <= DAYS && DayKey(n - 1) !in bm && DayKey(n) in bm
    ensures NullThrough(bm, DAYS)
  {
    assert NullAt(bm, n);
    NullThroughUpTo(bm, n, DAYS);
  }

  /** A present day after a present one (or day 1) keeps the month free of null dereferences. */
  lemma NullFreeStep(bm: Bits, n: nat)
    requires 1 <= n <= DAYS && !NullThrough(bm, n - 1)
    requires DayKey(n) in bm ==> n == 1 || DayKey(n - 1) in bm
    ensures !NullThrough(bm, n)
  {
  }

  /** Once some day of 1..n dereferences null, so does the whole month. */
  lemma {:induction false} NullThroughUpTo(bm: Bits, n: nat, m: nat)
    requires n <= m <= DAYS && NullThrough(bm, n)
    ensures NullThrough(bm, m)
    decreases m - n
  {
    if n < m {
      NullThroughUpTo(bm, n + 1, m);
    }
  }

  /**
   * A month whose only key is day 2 makes the as-written loop dereference null on day 2:
   * day 1 is absent, so `prevLogin` is null when day 2 is read.
   */
  lemma NullDerefOnDayTwo(offset: nat)
    ensures NullThrough(map[DayKey(2) := {offset}], DAYS)
  {
    var bm := map[DayKey(2) := {offset}];
    DayKeyInjective(1, 2);
    assert DayKey(1) !in bm && DayKey(1 + 1) in bm;
    NullThroughWitness(bm, DAYS);
  }
}
