/**
 * The latency tier table of main.py and the lookup that files a round-trip
 * time under the first tier whose integer range holds it.
 */
module Tiers {
  import opened Wrappers

  /** Python's `sys.maxsize` on a 64-bit build: 2^63 - 1. */
  const MaxSize: int := 0x7FFF_FFFF_FFFF_FFFF

  /** A named quality tier covering the integers of `range(lo, hi)`. */
  datatype Tier = Tier(name: string, lo: int, hi: int)

  /** Membership in Python's `range(lo, hi)` (step 1): `lo <= t < hi`. */
  predicate Contains(tier: Tier, t: int) {
    tier.lo <= t < tier.hi
  }

  /** The `ping_ranges` table, in scan order. */
  const PingRanges: seq<Tier> := [
    Tier("perfect", 0, 30),
    Tier("satisfactory", 30, 60),
    Tier("uncomfortable", 60, 90),
    Tier("unplayable", 90, MaxSize)
  ]

  /**
   * `int(x)` for a float `x`: truncation toward zero. The result is the
   * integer nearest to `x` on the side of zero, less than 1 away from it.
   */
  function Trunc(x: real): (t: int)
    ensures 0.0 <= x ==> 0 <= t && t as real <= x < t as real + 1.0
    ensures x < 0.0 ==> t <= 0 && t as real - 1.0 < x <= t as real
  {
    if x >= 0.0 then x.Floor else -((-x).Floor)
  }

  /**
   * The index of the first tier at or after `from` whose range holds `t`,
   * or None when no tier from there on does: the scan with `break`.
   */
  function FirstMatchFrom(tiers: seq<Tier>, t: int, from: nat): (r: Option<nat>)
    decreases |tiers| - from
    ensures r.Some? ==> from <= r.value < |tiers| && Contains(tiers[r.value], t)
    ensures r.Some? ==> forall j :: from <= j < r.value ==> !Contains(tiers[j], t)
    ensures r.None? ==> forall j :: from <= j < |tiers| ==> !Contains(tiers[j], t)
  {
    if from >= |tiers| then None
    else if Contains(tiers[from], t) then Some(from)
    else FirstMatchFrom(tiers, t, from + 1)
  }

  /** The first tier of the whole table whose range holds `t`. */
  function FirstMatch(tiers: seq<Tier>, t: int): Option<nat> {
    FirstMatchFrom(tiers, t, 0)
  }

  /**
   * A table whose ranges are non-decreasing and each start where the previous
   * one ends: they are disjoint and together cover `[tiers[0].lo, last.hi)`.
   */
  ghost predicate Contiguous(tiers: seq<Tier>) {
    && |tiers| > 0
    && (forall j :: 0 <= j < |tiers| ==> tiers[j].lo <= tiers[j].hi)
    && (forall j :: 0 < j < |tiers| ==> tiers[j - 1].hi == tiers[j].lo)
  }

  lemma {:induction false} BoundsOrdered(tiers: seq<Tier>, j: nat, i: nat)
    requires Contiguous(tiers)
    requires j < i < |tiers|
    ensures tiers[j].hi <= tiers[i].lo
  {
    if j + 1 < i {
      BoundsOrdered(tiers, j, i - 1);
    }
  }

  /** In a contiguous table, two different tiers never hold the same value. */
  lemma Disjoint(tiers: seq<Tier>, t: int, i: nat, j: nat)
    requires Contiguous(tiers)
    requires i < |tiers| && j < |tiers|
    requires Contains(tiers[i], t) && Contains(tiers[j], t)
    ensures i == j
  {
    if j < i {
      BoundsOrdered(tiers, j, i);
    } else if i < j {
      BoundsOrdered(tiers, i, j);
    }
  }

  /** Every value between the first lower bound and the last upper bound lies in some tier. */
  lemma {:induction false} Covers(tiers: seq<Tier>, t: int, from: nat)
    requires Contiguous(tiers)
    requires from < |tiers|
    requires tiers[from].lo <= t < tiers[|tiers| - 1].hi
    ensures exists i :: from <= i < |tiers| && Contains(tiers[i], t)
    decreases |tiers| - from
  {
    if !Contains(tiers[from], t) {
      assert from + 1 < |tiers|;
      assert tiers[from].hi == tiers[from + 1].lo;
      Covers(tiers, t, from + 1);
    }
  }

  /**
   * For a contiguous table the scan finds tier `i` exactly when `t` lies in
   * tier `i`'s range, and finds nothing exactly when `t` is outside
   * `[first.lo, last.hi)`.
   */
  lemma FirstMatchExact(tiers: seq<Tier>, t: int, i: nat)
    requires Contiguous(tiers)
    ensures FirstMatch(tiers, t) == Some(i) <==> i < |tiers| && Contains(tiers[i], t)
    ensures FirstMatch(tiers, t).None? <==> t < tiers[0].lo || tiers[|tiers| - 1].hi <= t
  {
    var r := FirstMatch(tiers, t);
    if i < |tiers| && Contains(tiers[i], t) {
      Disjoint(tiers, t, i, r.value);
    }
    if tiers[0].lo <= t < tiers[|tiers| - 1].hi {
      Covers(tiers, t, 0);
    } else if r.Some? {
      if t < tiers[0].lo {
        if r.value > 0 { BoundsOrdered(tiers, 0, r.value); }
      } else {
        if r.value < |tiers| - 1 { BoundsOrdered(tiers, r.value, |tiers| - 1); }
      }
    }
  }

  lemma PingRangesContiguous()
    ensures Contiguous(PingRanges)
    ensures PingRanges[0].lo == 0 && PingRanges[|PingRanges| - 1].hi == MaxSize
  {
  }

  /**
   * The tier a truncated average `t` is filed under: perfect for 0 <= t < 30,
   * satisfactory for 30 <= t < 60, uncomfortable for 60 <= t < 90,
   * unplayable for 90 <= t < sys.maxsize, and none otherwise.
   */
  lemma PingTierOfInteger(t: int)
    ensures FirstMatch(PingRanges, t) == Some(0) <==> 0 <= t < 30
    ensures FirstMatch(PingRanges, t) == Some(1) <==> 30 <= t < 60
    ensures FirstMatch(PingRanges, t) == Some(2) <==> 60 <= t < 90
    ensures FirstMatch(PingRanges, t) == Some(3) <==> 90 <= t < MaxSize
    ensures FirstMatch(PingRanges, t).None? <==> t < 0 || MaxSize <= t
  {
    PingRangesContiguous();
    FirstMatchExact(PingRanges, t, 0);
    FirstMatchExact(PingRanges, t, 1);
    FirstMatchExact(PingRanges, t, 2);
    FirstMatchExact(PingRanges, t, 3);
  }

  /**
   * The same bands stated on the raw average before `int(...)`: because the
   * truncation is toward zero, averages strictly between -1 and 0 become 0
   * and count as perfect; only averages at most -1 or at least sys.maxsize
   * fall outside every tier.
   */
  lemma PingTierOfAverage(avg: real)
    ensures FirstMatch(PingRanges, Trunc(avg)) == Some(0) <==> -1.0 < avg < 30.0
    ensures FirstMatch(PingRanges, Trunc(avg)) == Some(1) <==> 30.0 <= avg < 60.0
    ensures FirstMatch(PingRanges, Trunc(avg)) == Some(2) <==> 60.0 <= avg < 90.0
    ensures FirstMatch(PingRanges, Trunc(avg)) == Some(3) <==> 90.0 <= avg < MaxSize as real
    ensures FirstMatch(PingRanges, Trunc(avg)).None? <==> avg <= -1.0 || MaxSize as real <= avg
  {
    PingTierOfInteger(Trunc(avg));
  }

  /** The tier name under which a raw average is filed, if any. */
  function TierName(avg: real): (name: Option<string>)
    ensures name.Some? <==> -1.0 < avg < MaxSize as real
    ensures name == Some("perfect") <==> -1.0 < avg < 30.0
    ensures name == Some("satisfactory") <==> 30.0 <= avg < 60.0
    ensures name == Some("uncomfortable") <==> 60.0 <= avg < 90.0
    ensures name == Some("unplayable") <==> 90.0 <= avg < MaxSize as real
  {
    PingTierOfAverage(avg);
    match FirstMatch(PingRanges, Trunc(avg))
    case None => None
    case Some(i) => Some(PingRanges[i].name)
  }

  /** Boundary cases: just under 30 is perfect, 30 is satisfactory, 90 is unplayable. */
  lemma BoundaryExamples()
    ensures TierName(29.999) == Some("perfect")
    ensures TierName(30.0) == Some("satisfactory")
    ensures TierName(90.0) == Some("unplayable")
    ensures TierName(-0.5) == Some("perfect")
    ensures TierName(-1.0) == None
  {
    PingTierOfAverage(29.999);
    PingTierOfAverage(30.0);
    PingTierOfAverage(90.0);
    PingTierOfAverage(-0.5);
  }
}
