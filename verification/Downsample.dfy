/** Bucketing of stored readings for the charts (service/stats.go). */
module Downsample {

  datatype Reading = Reading(dateTime: int, upload: bool, traffic: nat)

  /** Go's integer division truncates toward zero. */
  function TruncDiv(a: int, b: int): int
    requires b != 0
  {
    if (a < 0) == (b < 0) then Abs(a) / Abs(b) else -(Abs(a) / Abs(b))
  }

  function Abs(a: int): nat {
    if a < 0 then -a else a
  }

  function Span(startTime: int, endTime: int, numBuckets: int): (r: int)
    requires 0 < numBuckets
    ensures r != 0
  {
    var span := TruncDiv(endTime - startTime, numBuckets);
    if span == 0 then 1 else span
  }

  /** The bucket of a time; both ends absorb what lies outside. */
  function BucketOf(time: int, startTime: int, span: int, numBuckets: int): (b: nat)
    requires span != 0 && 0 < numBuckets
    ensures b < numBuckets
  {
    var bucket := TruncDiv(time - startTime, span);
    if bucket < 0 then 0 else if bucket >= numBuckets then numBuckets - 1 else bucket
  }

  lemma {:induction false} Products(a: nat, b: nat, d: nat)
    ensures a < b ==> a * d + d <= b * d
    decreases b
  {
    if a < b - 1 {
      Products(a, b - 1, d);
      assert b * d == (b - 1) * d + d;
    } else if a == b - 1 {
      assert b * d == a * d + d;
    }
  }

  lemma Quotient(x: nat, d: nat, q: nat)
    requires 0 < d
    ensures x / d == q <==> q * d <= x < q * d + d
  {
    var r := x / d;
    assert r * d <= x < r * d + d;
    Products(q, r, d);
    Products(r, q, d);
  }

  /** Bucket b covers one span from its own start; the first also takes what lies before, the last what
      lies after. */
  lemma BucketCovers(time: int, start: int, span: int, n: int, b: nat)
    requires 0 < span && b < n
    ensures BucketOf(time, start, span, n) == b
            <==> (b == 0 || start + b * span <= time) && (b == n - 1 || time < start + b * span + span)
  {
    if start <= time {
      Quotient(time - start, span, b);
      var q := (time - start) / span;
      Quotient(time - start, span, q);
      Products(q, b, span);
      Products(b, q, span);
    } else {
      Products(0, b, span);
      assert TruncDiv(time - start, span) <= 0;
    }
  }

  /** A window that ends before it starts runs backwards. */
  lemma BucketMirrored(time: int, start: int, span: int, n: int)
    requires span < 0 < n
    ensures BucketOf(time, start, span, n) == BucketOf(2 * start - time, start, -span, n)
  {
    assert Abs(time - start) == Abs(2 * start - time - start);
  }

  /** The spans fill the window up to a remainder of less than one second per bucket. */
  lemma SpanFills(startTime: int, endTime: int, n: int)
    requires 0 < n && startTime <= endTime
    ensures var span := Span(startTime, endTime, n);
            if endTime - startTime < n then span == 1
            else n * span <= endTime - startTime < n * span + n
  {
    Quotient(endTime - startTime, n, (endTime - startTime) / n);
    if endTime - startTime < n {
      Quotient(endTime - startTime, n, 0);
    }
  }

  function BucketSum(stats: seq<Reading>, b: int, upload: bool, start: int, span: int, n: int): nat
    requires span != 0 && 0 < n
  {
    if stats == [] then 0
    else
      var r := stats[|stats| - 1];
      BucketSum(stats[..|stats| - 1], b, upload, start, span, n)
      + if r.upload == upload && BucketOf(r.dateTime, start, span, n) == b then r.traffic else 0
  }

  function Total(stats: seq<Reading>, upload: bool): nat {
    if stats == [] then 0
    else
      var r := stats[|stats| - 1];
      Total(stats[..|stats| - 1], upload) + if r.upload == upload then r.traffic else 0
  }

  method Clamp(time: int, startTime: int, span: int, numBuckets: int) returns (bucket: int)
    requires span != 0 && 0 < numBuckets
    ensures bucket == BucketOf(time, startTime, span, numBuckets)
  {
    bucket := TruncDiv(time - startTime, span);
    if bucket < 0 {
      bucket := 0;
    }
    if bucket >= numBuckets {
      bucket := numBuckets - 1;
    }
  }

  /** The table that a sequence of readings builds, one reading at a time. */
  function Tally(stats: seq<Reading>, start: int, span: int, n: int): map<int, (nat, nat)>
    requires span != 0 && 0 < n
  {
    if stats == [] then map[]
    else
      var r := stats[|stats| - 1];
      var before := Tally(stats[..|stats| - 1], start, span, n);
      var b := BucketOf(r.dateTime, start, span, n);
      var (up, down) := if b in before then before[b] else (0, 0);
      before[b := if r.upload then (up + r.traffic, down) else (up, down + r.traffic)]
  }

  /** A bucket holds the sums of the readings that fall into it; buckets without readings are absent. */
  lemma {:induction false} TallySums(stats: seq<Reading>, b: int, start: int, span: int, n: int)
    requires span != 0 && 0 < n
    ensures var m := Tally(stats, start, span, n);
            && (b in m ==> 0 <= b < n && m[b] == (BucketSum(stats, b, true, start, span, n),
                                                 BucketSum(stats, b, false, start, span, n)))
            && (b !in m ==> forall r :: r in stats ==> BucketOf(r.dateTime, start, span, n) != b)
            && (b !in m ==> BucketSum(stats, b, true, start, span, n) == 0)
            && (b !in m ==> BucketSum(stats, b, false, start, span, n) == 0)
  {
    hide BucketOf;
    if stats != [] {
      var r := stats[|stats| - 1];
      var init := stats[..|stats| - 1];
      TallySums(init, b, start, span, n);
      assert forall x :: x in stats ==> x == r || x in init;
    }
  }

  method DownsampleStats(stats: seq<Reading>, startTime: int, endTime: int, numBuckets: int)
    returns (result: map<int, (nat, nat)>, span: int)
    requires 0 < numBuckets
    ensures span == Span(startTime, endTime, numBuckets)
    ensures result == Tally(stats, startTime, span, numBuckets)
  {
    result := map[];
    span := TruncDiv(endTime - startTime, numBuckets);
    if span == 0 {
      span := 1;
    }
    for i := 0 to |stats|
      invariant result == Tally(stats[..i], startTime, span, numBuckets)
    {
      assert stats[..i + 1][..i] == stats[..i];
      var r := stats[i];
      var bucket := Clamp(r.dateTime, startTime, span, numBuckets);
      if bucket !in result {
        result := result[bucket := (0, 0)];
      }
      var (up, down) := result[bucket];
      result := result[bucket := if r.upload then (up + r.traffic, down) else (up, down + r.traffic)];
    }
    assert stats[..|stats|] == stats;
  }

  function SumBuckets(stats: seq<Reading>, k: nat, upload: bool, start: int, span: int, n: int): nat
    requires span != 0 && 0 < n
  {
    if k == 0 then 0
    else SumBuckets(stats, k - 1, upload, start, span, n) + BucketSum(stats, k - 1, upload, start, span, n)
  }

  /** One more reading adds its traffic to the buckets up to `k` exactly when its bucket is among them. */
  lemma {:induction false} SumBucketsLast(stats: seq<Reading>, k: nat, upload: bool, start: int, span: int, n: int)
    requires span != 0 && 0 < n && stats != []
    ensures var r := stats[|stats| - 1];
            SumBuckets(stats, k, upload, start, span, n)
            == SumBuckets(stats[..|stats| - 1], k, upload, start, span, n)
               + if r.upload == upload && BucketOf(r.dateTime, start, span, n) < k then r.traffic else 0
  {
    if k > 0 {
      SumBucketsLast(stats, k - 1, upload, start, span, n);
    }
  }

  /** Bucketing neither loses nor invents traffic. */
  lemma {:induction false} DownsampleConserves(stats: seq<Reading>, upload: bool, start: int, span: int, n: int)
    requires span != 0 && 0 < n
    ensures SumBuckets(stats, n, upload, start, span, n) == Total(stats, upload)
  {
    if stats == [] {
      EmptyBuckets(n, upload, start, span, n);
    } else {
      SumBucketsLast(stats, n, upload, start, span, n);
      DownsampleConserves(stats[..|stats| - 1], upload, start, span, n);
    }
  }

  lemma {:induction false} EmptyBuckets(k: nat, upload: bool, start: int, span: int, n: int)
    requires span != 0 && 0 < n
    ensures SumBuckets([], k, upload, start, span, n) == 0
  {
    if k > 0 {
      EmptyBuckets(k - 1, upload, start, span, n);
    }
  }
}
