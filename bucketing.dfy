/**
 * The per-datacenter bucketing of a job's complete results: every tier of
 * `ping_ranges` owns a list of (server, average) pairs that is emptied before
 * each datacenter and then appended to, one result at a time.
 */
module Bucketing {
  import opened Wrappers
  import opened Filtering
  import opened Tiers

  /** One complete result: the probe's name and its raw average round-trip time in ms. */
  datatype Entry = Entry(server: string, avg: real)

  /**
   * The tier a result is filed under: the first tier whose range holds the
   * truncated average. The untruncated average is only used for this test.
   */
  function TierOf(tiers: seq<Tier>, e: Entry): (r: Option<nat>)
    ensures r.Some? ==> r.value < |tiers| && Contains(tiers[r.value], Trunc(e.avg))
    ensures r.None? ==> forall j :: 0 <= j < |tiers| ==> !Contains(tiers[j], Trunc(e.avg))
  {
    FirstMatch(tiers, Trunc(e.avg))
  }

  /** The test that selects the results belonging to tier `i`. */
  function InTier(tiers: seq<Tier>, i: nat): Entry -> bool {
    e => TierOf(tiers, e) == Some(i)
  }

  /**
   * The buckets for one datacenter, as a function of its results alone:
   * bucket `i` lists, in result order, the results filed under tier `i`.
   */
  function Buckets(tiers: seq<Tier>, rs: seq<Entry>): (b: seq<seq<Entry>>)
    ensures |b| == |tiers|
  {
    seq(|tiers|, i requires 0 <= i < |tiers| => Filter(rs, InTier(tiers, i)))
  }

  /** Filing one more result: it is appended to its own tier's bucket, every other bucket is unchanged. */
  function Place(tiers: seq<Tier>, b: seq<seq<Entry>>, e: Entry): (b': seq<seq<Entry>>)
    requires |b| == |tiers|
    ensures |b'| == |tiers|
    ensures forall i :: 0 <= i < |tiers| ==> b'[i] == if TierOf(tiers, e) == Some(i) then b[i] + [e] else b[i]
  {
    match TierOf(tiers, e)
    case None => b
    case Some(i) => b[i := b[i] + [e]]
  }

  /** Bucketing results one at a time with Place builds exactly Buckets. */
  lemma BucketsSnoc(tiers: seq<Tier>, rs: seq<Entry>, e: Entry)
    ensures Buckets(tiers, rs + [e]) == Place(tiers, Buckets(tiers, rs), e)
  {
    var lhs, rhs := Buckets(tiers, rs + [e]), Place(tiers, Buckets(tiers, rs), e);
    forall i | 0 <= i < |tiers|
      ensures lhs[i] == rhs[i]
    {
      FilterSnoc(rs, e, InTier(tiers, i));
    }
  }

  /**
   * Where a result ends up: in bucket `i` exactly as often as it occurs among
   * the results when `i` is its tier, and not at all otherwise. So every
   * result is in at most one bucket, and no bucket holds anything that was not
   * among this datacenter's results.
   */
  lemma BucketContents(tiers: seq<Tier>, rs: seq<Entry>, i: nat, e: Entry)
    requires i < |tiers|
    ensures multiset(Buckets(tiers, rs)[i])[e] == if TierOf(tiers, e) == Some(i) then multiset(rs)[e] else 0
    ensures e in Buckets(tiers, rs)[i] <==> e in rs && TierOf(tiers, e) == Some(i)
  {
    FilterMultiplicity(rs, InTier(tiers, i), e);
  }

  /** Within a bucket, results keep the order they had in the job's results. */
  lemma BucketOrder(tiers: seq<Tier>, rs: seq<Entry>, i: nat)
    requires i < |tiers|
    ensures IsSubsequence(Buckets(tiers, rs)[i], rs)
  {
    FilterIsSubsequence(rs, InTier(tiers, i));
  }

  /**
   * With the `ping_ranges` table, a result lands in exactly one bucket when its
   * average is above -1 and below sys.maxsize, and in none otherwise; the
   * pair stored is the result itself, with its untruncated average.
   */
  lemma PingBucketOf(rs: seq<Entry>, e: Entry)
    requires e in rs
    ensures (exists i :: 0 <= i < |PingRanges| && e in Buckets(PingRanges, rs)[i]) <==> -1.0 < e.avg < MaxSize as real
    ensures forall i, j :: 0 <= i < j < |PingRanges| ==> !(e in Buckets(PingRanges, rs)[i] && e in Buckets(PingRanges, rs)[j])
  {
    PingTierOfAverage(e.avg);
    forall i | 0 <= i < |PingRanges|
      ensures e in Buckets(PingRanges, rs)[i] <==> TierOf(PingRanges, e) == Some(i)
    {
      BucketContents(PingRanges, rs, i, e);
    }
    if -1.0 < e.avg < MaxSize as real {
      var k := TierOf(PingRanges, e).value;
      assert e in Buckets(PingRanges, rs)[k];
    }
  }

  /** When every result falls in tier `i`, bucket `i` lists all of them in result order. */
  lemma {:induction false} SameTierKeepsAll(tiers: seq<Tier>, rs: seq<Entry>, i: nat)
    requires i < |tiers|
    requires forall e :: e in rs ==> TierOf(tiers, e) == Some(i)
    ensures Buckets(tiers, rs)[i] == rs
  {
    if rs != [] {
      assert forall e :: e in rs[1..] ==> e in rs;
      SameTierKeepsAll(tiers, rs[1..], i);
    }
  }

  /** A single probe reporting 25.0 ms is filed as perfect and nowhere else. */
  lemma SingleResultExample()
    ensures Buckets(PingRanges, [Entry("tokyo", 25.0)]) == [[Entry("tokyo", 25.0)], [], [], []]
  {
    var e := Entry("tokyo", 25.0);
    PingTierOfAverage(e.avg);
    var b := Buckets(PingRanges, [e]);
    assert [e][1..] == [];
    assert b[0] == [e] && b[1] == [] && b[2] == [] && b[3] == [];
  }

  /** The `ping_ranges` table together with the lists its tiers currently hold. */
  class TierTable {
    const tiers: seq<Tier>
    var servers: seq<seq<Entry>>

    ghost predicate Valid()
      reads this
    {
      |servers| == |tiers|
    }

    constructor ()
      ensures Valid() && tiers == PingRanges
      ensures forall i :: 0 <= i < |servers| ==> servers[i] == []
    {
      tiers := PingRanges;
      servers := [[], [], [], []];
    }

    /** Empties every tier's list before a new datacenter is processed. */
    method Reset()
      requires Valid()
      modifies this
      ensures Valid()
      ensures servers == Buckets(tiers, [])
    {
      var i := 0;
      while i < |tiers|
        invariant 0 <= i <= |servers| == |tiers|
        invariant forall j :: 0 <= j < i ==> servers[j] == []
      {
        servers := servers[i := []];
        i := i + 1;
      }
    }

    /**
     * Scans the tiers in order and appends `(server, avg)` to the first one
     * whose range holds the truncated average; a result no tier holds is
     * dropped.
     */
    method Classify(server: string, avg: real)
      requires Valid()
      modifies this
      ensures Valid()
      ensures servers == Place(tiers, old(servers), Entry(server, avg))
    {
      var t := Trunc(avg);
      var i := 0;
      while i < |tiers|
        invariant 0 <= i <= |tiers|
        invariant servers == old(servers)
        invariant FirstMatch(tiers, t) == FirstMatchFrom(tiers, t, i)
      {
        if Contains(tiers[i], t) {
          servers := servers[i := servers[i] + [Entry(server, avg)]];
          return;
        }
        i := i + 1;
      }
    }

    /**
     * Processes one datacenter's complete results: empties the lists, then
     * files each result in iteration order. The lists afterwards depend on
     * these results only, never on an earlier datacenter's.
     */
    method Collect(rs: seq<Entry>)
      requires Valid()
      modifies this
      ensures Valid()
      ensures servers == Buckets(tiers, rs)
    {
      Reset();
      assert rs[..0] == [];
      for k := 0 to |rs|
        invariant Valid()
        invariant servers == Buckets(tiers, rs[..k])
      {
        var e := rs[k];
        assert e == Entry(e.server, e.avg);
        ghost var before := rs[..k];
        assert rs[..k + 1] == before + [e];
        BucketsSnoc(tiers, before, e);
        Classify(e.server, e.avg);
      }
      assert rs[..|rs|] == rs;
    }
  }
}
