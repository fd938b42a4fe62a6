/** Latency histograms: what a node counts, what the validator accepts, and the percentile
    derived from it. */
module Histogram {

  const WORD := 0x1_0000_0000_0000_0000

  /** The least and the greatest nanoseconds of each bucket; the last has no upper bound. */
  const LOWER: seq<nat> := [0, 10001, 50001, 100001, 500001, 1000001, 5000001, 10000001]
  const UPPER: seq<nat> := [10000, 50000, 100000, 500000, 1000000, 5000000, 10000000]

  function BucketOf(ns: nat): (b: nat)
    ensures b <= 7 && LOWER[b] <= ns && (b < 7 ==> ns <= UPPER[b])
  {
    if ns <= 10000 then 0 else if ns <= 50000 then 1 else if ns <= 100000 then 2 else if ns <= 500000 then 3
    else if ns <= 1000000 then 4 else if ns <= 5000000 then 5 else if ns <= 10000000 then 6 else 7
  }

  lemma BucketUnique(ns: nat, b: nat)
    requires b <= 7 && LOWER[b] <= ns && (b < 7 ==> ns <= UPPER[b])
    ensures BucketOf(ns) == b
  {
    assert b == 0 || b == 1 || b == 2 || b == 3 || b == 4 || b == 5 || b == 6 || b == 7;
  }

  lemma BucketMonotone(m: nat, n: nat)
    requires m <= n
    ensures BucketOf(m) <= BucketOf(n)
  {
  }

  // ----- samples behind a histogram -----

  function Sum(samples: seq<nat>): nat {
    if samples == [] then 0 else Sum(samples[..|samples| - 1]) + samples[|samples| - 1]
  }

  function Tally(samples: seq<nat>, b: nat): nat {
    if samples == [] then 0
    else Tally(samples[..|samples| - 1], b) + (if BucketOf(samples[|samples| - 1]) == b then 1 else 0)
  }

  type Buckets = b: seq<nat> | |b| == 8 witness [0, 0, 0, 0, 0, 0, 0, 0]

  /** The samples fall into these buckets and add up to this sum. */
  ghost predicate Realises(samples: seq<nat>, b: Buckets, sum: nat) {
    Sum(samples) == sum && forall i :: 0 <= i < 8 ==> Tally(samples, i) == b[i]
  }

  function Total(b: Buckets): nat {
    b[0] + b[1] + b[2] + b[3] + b[4] + b[5] + b[6] + b[7]
  }

  function Minimum(b: Buckets): nat {
    b[1] * 10001 + b[2] * 50001 + b[3] * 100001 + b[4] * 500001 + b[5] * 1000001 + b[6] * 5000001 + b[7] * 10000001
  }

  /** The greatest sum of the bounded buckets. */
  function Maximum(b: Buckets): nat {
    b[0] * 10000 + b[1] * 50000 + b[2] * 100000 + b[3] * 500000 + b[4] * 1000000 + b[5] * 5000000 + b[6] * 10000000
  }

  predicate Within(b: Buckets, sum: nat) {
    Minimum(b) <= sum && (b[7] > 0 || sum <= Maximum(b))
  }

  function Tallies(samples: seq<nat>): Buckets {
    [Tally(samples, 0), Tally(samples, 1), Tally(samples, 2), Tally(samples, 3),
     Tally(samples, 4), Tally(samples, 5), Tally(samples, 6), Tally(samples, 7)]
  }

  function Add(b: Buckets, i: nat): Buckets
    requires i < 8
  {
    b[i := b[i] + 1]
  }

  lemma TallyMore(samples: seq<nat>, v: nat)
    ensures Tallies(samples + [v]) == Add(Tallies(samples), BucketOf(v))
    ensures Sum(samples + [v]) == Sum(samples) + v
  {
    hide BucketOf;
    var more := samples + [v];
    assert more[..|samples|] == samples;
    forall i | 0 <= i < 8 ensures Tally(more, i) == Tally(samples, i) + (if BucketOf(v) == i then 1 else 0) {
    }
  }

  lemma AddBounds(b: Buckets, i: nat)
    requires i < 8
    ensures Total(Add(b, i)) == Total(b) + 1
    ensures Minimum(Add(b, i)) == Minimum(b) + LOWER[i]
    ensures Maximum(Add(b, i)) == Maximum(b) + (if i < 7 then UPPER[i] else 0)
  {
  }

  /** Any samples have a sum within the bounds of their buckets. */
  lemma {:induction false} SamplesWithin(samples: seq<nat>)
    ensures Within(Tallies(samples), Sum(samples)) && Total(Tallies(samples)) == |samples|
  {
    hide Tally, Sum, BucketOf;
    if samples == [] {
      NoSamples();
    } else {
      var n := |samples| - 1;
      SamplesWithin(samples[..n]);
      assert samples == samples[..n] + [samples[n]];
      TallyMore(samples[..n], samples[n]);
      AddBounds(Tallies(samples[..n]), BucketOf(samples[n]));
    }
  }

  lemma NoSamples()
    ensures Tallies([]) == [0, 0, 0, 0, 0, 0, 0, 0] && Sum([]) == 0
  {
  }

  /** Buckets and a sum within their bounds have samples. */
  lemma {:induction false} SamplesExist(b: Buckets, sum: nat) returns (samples: seq<nat>)
    requires Within(b, sum)
    ensures Tallies(samples) == b && Sum(samples) == sum
    decreases Total(b)
  {
    hide Tally, Sum, BucketOf, Within;
    if Total(b) == 0 {
      EmptySum(b, sum);
      NoSamples();
      samples := [];
    } else {
      var i, v := TakeOne(b, sum);
      var rest := b[i := b[i] - 1];
      assert Add(rest, i) == b;
      AddBounds(rest, i);
      samples := SamplesExist(rest, sum - v);
      TallyMore(samples, v);
      BucketUnique(v, i);
      samples := samples + [v];
    }
  }

  lemma EmptySum(b: Buckets, sum: nat)
    requires Within(b, sum) && Total(b) == 0
    ensures sum == 0 && b == [0, 0, 0, 0, 0, 0, 0, 0]
  {
  }

  /** One sample that leaves the rest within bounds. */
  lemma TakeOne(b: Buckets, sum: nat) returns (i: nat, v: nat)
    requires Within(b, sum) && Total(b) > 0
    ensures i < 8 && b[i] > 0 && v <= sum && LOWER[i] <= v && (i < 7 ==> v <= UPPER[i])
    ensures Within(b[i := b[i] - 1], sum - v)
  {
    hide Within;
    if j :| 0 <= j < 7 && b[j] > 0 {
      i := j;
      v := TakeBounded(b, sum, i);
    } else {
      i := 7;
      v := TakeLast(b, sum);
    }
  }

  lemma TakeBounded(b: Buckets, sum: nat, i: nat) returns (v: nat)
    requires Within(b, sum) && i < 7 && b[i] > 0
    ensures v <= sum && LOWER[i] <= v <= UPPER[i] && Within(b[i := b[i] - 1], sum - v)
  {
    hide Total, Minimum, Maximum;
    var rest := b[i := b[i] - 1];
    assert Add(rest, i) == b;
    AddBounds(rest, i);
    if b[7] > 0 || sum - LOWER[i] <= Maximum(rest) {
      v := LOWER[i];
    } else {
      v := sum - Maximum(rest);
      BelowMaximum(rest);
    }
  }

  lemma TakeLast(b: Buckets, sum: nat) returns (v: nat)
    requires Within(b, sum) && Total(b) > 0 && forall j :: 0 <= j < 7 ==> b[j] == 0
    ensures b[7] > 0 && LOWER[7] <= v <= sum && Within(b[7 := b[7] - 1], sum - v)
  {
    v := if b[7] == 1 then sum else LOWER[7];
  }

  lemma BelowMaximum(b: Buckets)
    requires b[7] == 0
    ensures Minimum(b) <= Maximum(b)
  {
  }

  // ----- validation -----

  /** The latency part of a report: accepted exactly when some samples explain it and there
      were at least as many messages. */
  method Validate(count: nat, sum: nat, b: Buckets, messages: nat) returns (ok: bool)
    requires count < WORD && sum < WORD && messages < WORD && forall i :: 0 <= i < 8 ==> b[i] < WORD
    ensures ok <==> count <= messages && exists samples :: Realises(samples, b, sum) && |samples| == count
  {
    hide Realises, Within, Total, Minimum, Maximum;
    Explained(b, sum, count);
    var fits, total, minimum, maximum := Accumulate(b);
    if !fits {
      return false;
    }
    ok := total == count && count <= messages && minimum <= sum && (b[7] > 0 || sum <= maximum) && (count != 0 || sum == 0);
    Decision(b, sum);
  }

  lemma Decision(b: Buckets, sum: nat)
    ensures Within(b, sum) <==> Minimum(b) <= sum && (b[7] > 0 || sum <= Maximum(b))
    ensures Within(b, sum) && Total(b) == 0 ==> sum == 0
  {
    if Within(b, sum) && Total(b) == 0 {
      EmptySum(b, sum);
    }
  }

  /** The totals of the buckets, unless their number does not fit a word. */
  method Accumulate(b: Buckets) returns (fits: bool, total: nat, minimum: nat, maximum: nat)
    ensures fits <==> Total(b) < WORD
    ensures fits ==> total == Total(b) && minimum == Minimum(b) && maximum == Maximum(b)
  {
    hide Total, Minimum, Maximum;
    total, minimum, maximum := 0, 0, 0;
    Prefixes(b);
    for i := 0 to 8
      invariant total == TotalTo(b, i) && minimum == MinimumTo(b, i) && maximum == MaximumTo(b, i)
      invariant total < WORD
    {
      if b[i] > WORD - 1 - total {
        TotalGrows(b, i + 1, 8);
        return false, total, minimum, maximum;
      }
      total := total + b[i];
      minimum := minimum + b[i] * LOWER[i];
      if i < 7 {
        maximum := maximum + b[i] * UPPER[i];
      }
    }
    fits := true;
  }

  function TotalTo(b: Buckets, n: nat): nat
    requires n <= 8
  {
    if n == 0 then 0 else TotalTo(b, n - 1) + b[n - 1]
  }

  function MinimumTo(b: Buckets, n: nat): nat
    requires n <= 8
  {
    if n == 0 then 0 else MinimumTo(b, n - 1) + b[n - 1] * LOWER[n - 1]
  }

  function MaximumTo(b: Buckets, n: nat): nat
    requires n <= 8
  {
    if n == 0 then 0 else MaximumTo(b, n - 1) + (if n - 1 < 7 then b[n - 1] * UPPER[n - 1] else 0)
  }

  lemma Prefixes(b: Buckets)
    ensures TotalTo(b, 8) == Total(b) && MinimumTo(b, 8) == Minimum(b) && MaximumTo(b, 8) == Maximum(b)
  {
    forall n | 0 < n <= 8
      ensures TotalTo(b, n) == TotalTo(b, n - 1) + b[n - 1]
      ensures MinimumTo(b, n) == MinimumTo(b, n - 1) + b[n - 1] * LOWER[n - 1]
      ensures MaximumTo(b, n) == MaximumTo(b, n - 1) + (if n - 1 < 7 then b[n - 1] * UPPER[n - 1] else 0)
    {
    }
  }

  lemma {:induction false} TotalGrows(b: Buckets, m: nat, n: nat)
    requires m <= n <= 8
    ensures TotalTo(b, m) <= TotalTo(b, n)
    decreases n - m
  {
    if m < n {
      TotalGrows(b, m, n - 1);
    }
  }

  /** Feasibility is exactly the bounds on the sum. */
  lemma Explained(b: Buckets, sum: nat, count: nat)
    ensures (exists samples :: Realises(samples, b, sum) && |samples| == count) <==> Within(b, sum) && Total(b) == count
  {
    if samples :| Realises(samples, b, sum) && |samples| == count {
      SamplesWithin(samples);
      assert Tallies(samples) == b;
    }
    if Within(b, sum) && Total(b) == count {
      var samples := SamplesExist(b, sum);
      SamplesWithin(samples);
      assert Realises(samples, b, sum);
    }
  }

  // ----- the percentile -----

  /** The rank of the 95th percentile: nineteen twentieths of the count, rounded up. */
  function Rank(count: nat): (r: nat)
    ensures 20 * r >= 19 * count && (count > 0 ==> 0 < r <= count && 20 * (r - 1) < 19 * count)
  {
    count - count / 20
  }

  method Percentile(b: Buckets) returns (i: nat)
    requires Total(b) > 0
    ensures i < 8 && TotalTo(b, i) < Rank(Total(b)) <= TotalTo(b, i + 1)
  {
    Prefixes(b);
    var rank := Rank(Total(b));
    var cumulative := 0;
    i := 0;
    while true
      invariant 0 <= i < 8 && cumulative == TotalTo(b, i) < rank
      decreases 8 - i
    {
      cumulative := cumulative + b[i];
      if cumulative >= rank {
        return;
      }
      i := i + 1;
    }
  }

  ghost predicate Sorted(s: seq<nat>) {
    forall i, j :: 0 <= i < j < |s| ==> s[i] <= s[j]
  }

  /** The samples in buckets below `n`. */
  function Below(s: seq<nat>, n: nat): nat {
    if s == [] then 0 else Below(s[..|s| - 1], n) + (if BucketOf(s[|s| - 1]) < n then 1 else 0)
  }

  lemma {:induction false} BelowIsTotal(s: seq<nat>, n: nat)
    requires n <= 8
    ensures Below(s, n) == TotalTo(Tallies(s), n)
    decreases n
  {
    if n == 0 {
      NoneBelow(s);
    } else {
      BelowIsTotal(s, n - 1);
      OneMoreBucket(s, n - 1);
      assert Tallies(s)[n - 1] == Tally(s, n - 1) by {
        assert n - 1 == 0 || n - 1 == 1 || n - 1 == 2 || n - 1 == 3 || n - 1 == 4 || n - 1 == 5 || n - 1 == 6 || n - 1 == 7;
      }
    }
  }

  lemma {:induction false} NoneBelow(s: seq<nat>)
    ensures Below(s, 0) == 0
  {
    if s != [] {
      NoneBelow(s[..|s| - 1]);
    }
  }

  lemma {:induction false} OneMoreBucket(s: seq<nat>, n: nat)
    ensures Below(s, n + 1) == Below(s, n) + Tally(s, n)
  {
    hide BucketOf;
    if s != [] {
      OneMoreBucket(s[..|s| - 1], n);
    }
  }

  /** In sorted samples, those below bucket `n` are exactly a prefix. */
  lemma {:induction false} BelowPrefix(s: seq<nat>, n: nat, k: nat)
    requires Sorted(s) && k < |s|
    ensures BucketOf(s[k]) < n ==> Below(s, n) > k
    ensures BucketOf(s[k]) >= n ==> Below(s, n) <= k
  {
    hide BucketOf;
    var m := |s| - 1;
    BelowCount(s[..m], n);
    if k < m {
      BelowPrefix(s[..m], n, k);
      BucketMonotone(s[k], s[m]);
    } else if BucketOf(s[m]) < n {
      forall i | 0 <= i < m ensures BucketOf(s[i]) < n {
        BucketMonotone(s[i], s[m]);
      }
      AllBelow(s[..m], n);
    }
  }

  lemma {:induction false} BelowCount(s: seq<nat>, n: nat)
    ensures Below(s, n) <= |s|
  {
    if s != [] {
      BelowCount(s[..|s| - 1], n);
    }
  }

  lemma {:induction false} AllBelow(s: seq<nat>, n: nat)
    requires forall i :: 0 <= i < |s| ==> BucketOf(s[i]) < n
    ensures Below(s, n) == |s|
  {
    if s != [] {
      AllBelow(s[..|s| - 1], n);
    }
  }

  /** Whatever the samples were, the one of that rank lies in the reported bucket. */
  lemma PercentileExact(s: seq<nat>, b: Buckets, sum: nat, i: nat)
    requires Realises(s, b, sum) && Sorted(s) && s != []
    requires i < 8 && TotalTo(b, i) < Rank(Total(b)) <= TotalTo(b, i + 1)
    ensures Total(b) == |s| && BucketOf(s[Rank(|s|) - 1]) == i
  {
    hide Tally, Sum, BucketOf;
    SamplesWithin(s);
    assert Tallies(s) == b by { TalliesRealised(s, b, sum); }
    var k := Rank(|s|) - 1;
    BelowIsTotal(s, i);
    BelowIsTotal(s, i + 1);
    BelowPrefix(s, i, k);
    BelowPrefix(s, i + 1, k);
  }

  lemma TalliesRealised(s: seq<nat>, b: Buckets, sum: nat)
    requires Realises(s, b, sum)
    ensures Tallies(s) == b
  {
  }

  // ----- the producer -----

  /** A node's counters for one stream. */
  class Meter {
    const buckets: array<nat>
    /** Messages received, and messages answered with their service time measured. */
    var received: nat
    var count: nat
    var sum: nat
    ghost var samples: seq<nat>

    ghost predicate Valid()
      reads this, buckets
    {
      buckets.Length == 8 && Realises(samples, buckets[..], sum) && count == |samples| <= received
    }

    constructor ()
      ensures Valid() && fresh(buckets) && samples == [] && received == 0
    {
      buckets := new nat[8](_ => 0);
      received, count, sum, samples := 0, 0, 0, [];
      new;
      NoSamples();
      assert buckets[..] == [0, 0, 0, 0, 0, 0, 0, 0];
      assert forall i :: 0 <= i < 8 ==> Tally([], i) == 0;
    }

    /** One message: rejected or not answered, or answered after `ns` nanoseconds. */
    method Serve(answered: bool, ns: nat)
      requires Valid()
      modifies this, buckets
      ensures Valid() && received == old(received) + 1
      ensures samples == if answered then old(samples) + [ns] else old(samples)
    {
      received := received + 1;
      if answered {
        Record(ns);
      }
    }

    method Record(ns: nat)
      requires Valid() && count < received
      modifies this`count, this`sum, this`samples, buckets
      ensures Valid() && samples == old(samples) + [ns] && count == old(count) + 1
    {
      hide Tally, Sum;
      count, sum := count + 1, sum + ns;
      var bucket := 0;
      while bucket < 7 && ns > UPPER[bucket]
        invariant 0 <= bucket <= 7 && LOWER[bucket] <= ns
      {
        bucket := bucket + 1;
      }
      BucketUnique(ns, bucket);
      ghost var before := buckets[..];
      TalliesRealised(samples, before, sum - ns);
      TallyMore(samples, ns);
      buckets[bucket] := buckets[bucket] + 1;
      samples := samples + [ns];
      assert buckets[..] == Add(before, bucket);
      RealisedTallies(samples, sum);
    }

    /** The node's own reports always pass, as long as the counters fit their words: of a
        stream's receiving end against the messages received, of an echo against those sent. */
    method Report(receiver: bool) returns (ok: bool)
      requires Valid() && received < WORD && sum < WORD
      ensures ok
    {
      var b := buckets[..];
      TalliesRealised(samples, b, sum);
      SamplesWithin(samples);
      ok := Validate(count, sum, b, if receiver then received else count);
      assert Realises(samples, b, sum) && |samples| == count;
    }
  }

  lemma RealisedTallies(s: seq<nat>, sum: nat)
    requires Sum(s) == sum
    ensures Realises(s, Tallies(s), sum)
  {
    forall i | 0 <= i < 8 ensures Tally(s, i) == Tallies(s)[i] {
      assert i == 0 || i == 1 || i == 2 || i == 3 || i == 4 || i == 5 || i == 6 || i == 7;
    }
  }
}
