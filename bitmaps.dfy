/**
 * Sets of bit positions, as the tracker sees them.
 *
 * Redis SETBIT numbers offset 0 as the most significant bit of byte 0, while
 * java.util.BitSet.valueOf numbers bit 0 as the least significant bit of byte 0.
 * A bitmap written at Redis offset k is therefore read back as BitSet index Mirror(k).
 */
module Bitmaps {

  /** The BitSet index of Redis bitmap offset `k`: same byte, bit order reversed within it. */
  function Mirror(k: nat): (m: nat)
    ensures m / 8 == k / 8 && m % 8 == 7 - k % 8
  {
    var q, r := k / 8, k % 8;
    assert (8 * q + (7 - r)) / 8 == q && (8 * q + (7 - r)) % 8 == 7 - r;
    8 * q + (7 - r)
  }

  /** Reading back what was written at the mirrored index gives the original offset. */
  lemma MirrorInvolution(k: nat)
    ensures Mirror(Mirror(k)) == k
  {
    var m := Mirror(k);
    assert m / 8 == k / 8 && m % 8 == 7 - k % 8;
    assert Mirror(m) == 8 * (m / 8) + (7 - m % 8);
  }

  /** The BitSet `BitSet.valueOf` builds from a bitmap whose set offsets are `s`. */
  function MirrorSet(s: set<nat>): set<nat>
  {
    set k | k in s :: Mirror(k)
  }

  lemma MirrorSetMember(s: set<nat>, x: nat)
    ensures x in MirrorSet(s) <==> Mirror(x) in s
  {
    MirrorInvolution(x);
    if x in MirrorSet(s) {
      var k :| k in s && Mirror(k) == x;
      MirrorInvolution(k);
    }
  }

  /** Reversing the bit order changes no count: the mirrored set has as many elements. */
  lemma {:induction false} MirrorSetCard(s: set<nat>)
    ensures |MirrorSet(s)| == |s|
  {
    if s != {} {
      var x :| x in s;
      MirrorSetCard(s - {x});
      forall y | y in MirrorSet(s) ensures y in MirrorSet(s - {x}) + {Mirror(x)} {
        MirrorSetMember(s, y);
        MirrorSetMember(s - {x}, y);
        MirrorInvolution(y);
      }
      assert MirrorSet(s) == MirrorSet(s - {x}) + {Mirror(x)};
      MirrorSetMember(s - {x}, Mirror(x));
      MirrorInvolution(x);
    }
  }

  /** AND and OR of the read-back bitmaps are the read-back of the AND and OR of the bitmaps. */
  lemma MirrorSetDistributes(a: set<nat>, b: set<nat>)
    ensures MirrorSet(a) * MirrorSet(b) == MirrorSet(a * b)
    ensures MirrorSet(a) + MirrorSet(b) == MirrorSet(a + b)
  {
    forall x | x in MirrorSet(a) * MirrorSet(b) + MirrorSet(a * b) + MirrorSet(a) + MirrorSet(b) + MirrorSet(a + b)
      ensures x in MirrorSet(a) * MirrorSet(b) <==> x in MirrorSet(a * b)
      ensures x in MirrorSet(a) + MirrorSet(b) <==> x in MirrorSet(a + b)
    {
      MirrorSetMember(a, x);
      MirrorSetMember(b, x);
      MirrorSetMember(a * b, x);
      MirrorSetMember(a + b, x);
    }
  }

  lemma MirrorSetMonotone(a: set<nat>, b: set<nat>)
    requires a <= b
    ensures MirrorSet(a) <= MirrorSet(b)
  {
  }

  /** The lowest set bit: what `nextSetBit` finds first. */
  ghost function Min(s: set<nat>): (m: nat)
    requires s != {}
    ensures m in s && forall k :: k in s ==> m <= k
  {
    var x :| x in s;
    if s == {x} then x
    else
      var m := Min(s - {x});
      assert forall k :: k in s && k != x ==> k in s - {x};
      if x < m then x else m
  }

  /**
   * The numbers a `nextSetBit` walk over `s` reports: j + 1 for every set bit j,
   * in ascending j.
   */
  ghost function Reported(s: set<nat>): (r: seq<int>)
    ensures |r| == |s|
    decreases |s|
  {
    if s == {} then [] else [Min(s) + 1] + Reported(s - {Min(s)})
  }

  /** The walk reports set bits only, each shifted by one, in strictly ascending order. */
  lemma {:induction false} ReportedAscending(s: set<nat>)
    ensures forall i :: 0 <= i < |Reported(s)| ==> 1 <= Reported(s)[i] && (Reported(s)[i] - 1) as nat in s
    ensures forall i, j :: 0 <= i < j < |Reported(s)| ==> Reported(s)[i] < Reported(s)[j]
    decreases |s|
  {
    if s != {} {
      var m := Min(s);
      ReportedAscending(s - {m});
      var r, rest := Reported(s), Reported(s - {m});
      assert r == [m + 1] + rest;
      assert forall i :: 0 <= i < |rest| ==> m + 1 < rest[i];
    }
  }

  /** Each set bit j is reported exactly once, as j + 1; no other number is reported. */
  lemma {:induction false} ReportedOnce(s: set<nat>, x: nat)
    ensures multiset(Reported(s))[x + 1] == if x in s then 1 else 0
    decreases |s|
  {
    if s != {} {
      var m := Min(s);
      ReportedOnce(s - {m}, x);
      assert Reported(s) == [m + 1] + Reported(s - {m});
    }
  }
}
