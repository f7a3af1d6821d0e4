/**
 * The two key families the service writes into Redis:
 *  - user keys  "user:" + Integer.toString(id)   (CACHE_KEY_USER + id)
 *  - day keys   "202306" + %02d of the day        (DATE_PREFIX + "%02d")
 */
module Keys {

  const USER_PREFIX: string := "user:"
  const DATE_PREFIX: string := "202306"
  /** The tracker covers days 1..30 of the month. */
  const DAYS: nat := 30

  predicate IsDigit(c: char) { '0' <= c <= '9' }

  predicate AllDigits(s: string) { forall i :: 0 <= i < |s| ==> IsDigit(s[i]) }

  function Digit(d: nat): (c: char)
    requires d < 10
    ensures IsDigit(c) && c as int - '0' as int == d
  {
    ('0' as int + d) as char
  }

  /** Decimal digits of a natural number, most significant first, no leading zeros. */
  function NatDigits(n: nat): (s: string)
    ensures 1 <= |s| && AllDigits(s)
  {
    if n < 10 then [Digit(n)] else NatDigits(n / 10) + [Digit(n % 10)]
  }

  /** The number a string of decimal digits denotes. */
  function DigitsValue(s: string): nat
    requires AllDigits(s)
  {
    if s == [] then 0 else DigitsValue(s[..|s| - 1]) * 10 + (s[|s| - 1] as int - '0' as int)
  }

  lemma {:induction false} NatDigitsRoundTrip(n: nat)
    ensures DigitsValue(NatDigits(n)) == n
  {
    if n >= 10 {
      var s := NatDigits(n);
      assert s[..|s| - 1] == NatDigits(n / 10);
      NatDigitsRoundTrip(n / 10);
    }
  }

  /** Java's Integer.toString: an optional minus sign followed by the digits of |i|. */
  function DecimalString(i: int): (s: string)
    ensures 1 <= |s| && (s[0] == '-' <==> i < 0)
  {
    if i < 0 then "-" + NatDigits(-i) else NatDigits(i)
  }

  /** Reads back what DecimalString writes. */
  function ParseDecimal(s: string): int
    requires 1 <= |s|
    requires s[0] == '-' ==> AllDigits(s[1..])
    requires s[0] != '-' ==> AllDigits(s)
  {
    if s[0] == '-' then -(DigitsValue(s[1..]) as int) else DigitsValue(s)
  }

  lemma DecimalRoundTrip(i: int)
    ensures var s := DecimalString(i);
            (s[0] == '-' ==> AllDigits(s[1..])) && (s[0] != '-' ==> AllDigits(s)) &&
            ParseDecimal(s) == i
  {
    if i < 0 {
      assert DecimalString(i)[1..] == NatDigits(-i);
      NatDigitsRoundTrip(-i);
    } else {
      NatDigitsRoundTrip(i);
    }
  }

  /** The cache key of user `id`. */
  function UserKey(id: int): (k: string)
    ensures |k| > |USER_PREFIX| && k[..|USER_PREFIX|] == USER_PREFIX
  {
    USER_PREFIX + DecimalString(id)
  }

  /** Distinct ids never share a cache entry. */
  lemma UserKeyInjective(a: int, b: int)
    ensures UserKey(a) == UserKey(b) <==> a == b
  {
    if UserKey(a) == UserKey(b) {
      assert DecimalString(a) == UserKey(a)[|USER_PREFIX|..];
      assert DecimalString(b) == UserKey(b)[|USER_PREFIX|..];
      DecimalRoundTrip(a);
      DecimalRoundTrip(b);
    }
  }

  /** A key built from any text other than the decimal id is not the user's cache key. */
  lemma OtherTextIsNotUserKey(id: int, text: string)
    requires text != DecimalString(id)
    ensures USER_PREFIX + text != UserKey(id)
  {
    assert (USER_PREFIX + text)[|USER_PREFIX|..] == text;
    assert UserKey(id)[|USER_PREFIX|..] == DecimalString(id);
  }

  /** The tens digit of `i`, by repeated subtraction. */
  function Tens(i: nat): (t: nat)
    ensures 10 * t <= i < 10 * t + 10
  {
    if i < 10 then 0 else 1 + Tens(i - 10)
  }

  /** `String.format("%02d", i)` for 0 <= i < 100. */
  function TwoDigits(i: nat): string
    requires i < 100
  {
    [Digit(Tens(i)), Digit(i - 10 * Tens(i))]
  }

  /** Two zero-padded digits that read back as the number. */
  lemma TwoDigitsValue(i: nat)
    requires i < 100
    ensures var s := TwoDigits(i); |s| == 2 && AllDigits(s) && DigitsValue(s) == i
  {
    var s := TwoDigits(i);
    assert s[..1] == [Digit(Tens(i))] && s[..1][..0] == [];
    assert DigitsValue(s[..1]) == Tens(i);
  }

  /** The Redis key of the login bitmap of `day`, e.g. "20230607" for day 7. */
  function DayKey(day: nat): string
    requires 1 <= day <= DAYS
  {
    DATE_PREFIX + TwoDigits(day)
  }

  /** Each day key is the 6-character month prefix and two digits: 8 digits in all. */
  lemma DayKeyFormat(day: nat)
    requires 1 <= day <= DAYS
    ensures var k := DayKey(day); |k| == 8 && k[..6] == DATE_PREFIX && AllDigits(k)
    ensures DigitsValue(DayKey(day)[6..]) == day
  {
    TwoDigitsValue(day);
    assert DayKey(day)[6..] == TwoDigits(day);
  }

  /** The 30 day keys are pairwise distinct. */
  lemma DayKeyInjective(a: nat, b: nat)
    requires 1 <= a <= DAYS && 1 <= b <= DAYS
    ensures DayKey(a) == DayKey(b) <==> a == b
  {
    if DayKey(a) == DayKey(b) {
      DayKeyFormat(a);
      DayKeyFormat(b);
    }
  }

  /** A day key is never a user key, so the tracker and the cache never share a Redis key. */
  lemma DayKeyIsNotUserKey(day: nat, id: int)
    requires 1 <= day <= DAYS
    ensures DayKey(day) != UserKey(id)
  {
    assert DayKey(day)[0] == '2';
    assert UserKey(id)[0] == 'u';
  }
}
