/**
 The bounded random number of src/runner.c: rejection sampling over equal buckets, and the bound
 on the spread that src/data.c keeps.
 */
module Rand {
  const RAND_MAX := 0x7FFF_FFFF
  const UINT_LIMIT := 0x1_0000_0000

  /** Unsigned arithmetic wraps; a range of 2^32 values is 0. */
  function Range(min: nat, max: nat): nat { (1 + max - min) % UINT_LIMIT }

  function Buckets(min: nat, max: nat): nat
    requires Range(min, max) != 0
  {
    RAND_MAX / Range(min, max)
  }

  function Limit(min: nat, max: nat): nat
    requires Range(min, max) != 0
  {
    Buckets(min, max) * Range(min, max)
  }

  /** Which value of the interval a draw stands for, counted from its beginning. */
  function Index(min: nat, max: nat, r: nat): nat
    requires Range(min, max) != 0 && Buckets(min, max) != 0
  {
    r / Buckets(min, max)
  }

  /** What an accepted draw is turned into. */
  function Pick(min: nat, max: nat, r: nat): nat
    requires Range(min, max) != 0 && Buckets(min, max) != 0
  {
    (min + Index(min, max, r)) % UINT_LIMIT
  }

  predicate Bounds(min: nat, max: nat) { min <= max < UINT_LIMIT }

  /** A possible result of rand. */
  predicate Draw(r: nat) { r <= RAND_MAX }

  predicate Accepted(min: nat, max: nat, r: nat)
    requires Range(min, max) != 0
  {
    r < Limit(min, max)
  }

  /** The draws that make the loop return v. */
  ghost function DrawsFor(min: nat, max: nat, v: nat): set<nat>
    requires Range(min, max) != 0 && Buckets(min, max) > 0
  {
    set r: nat | 0 <= r < Limit(min, max) && min + Index(min, max, r) == v
  }

  /** The do-while loop; the source never returns when no draw is accepted. */
  method RandInterval(min: nat, max: nat, draws: seq<nat>) returns (v: nat, used: nat)
    requires Bounds(min, max) && max - min < RAND_MAX
    requires exists k :: 0 <= k < |draws| && Accepted(min, max, draws[k])
    ensures 0 < used <= |draws| && Accepted(min, max, draws[used - 1])
    ensures forall k :: 0 <= k < used - 1 ==> !Accepted(min, max, draws[k])
    ensures min <= v <= max && draws[used - 1] in DrawsFor(min, max, v)
  {
    hide Range, Buckets, Limit, Pick, DrawsFor;
    BucketsPositive(min, max);
    var limit := Limit(min, max);
    used := 1;
    while draws[used - 1] >= limit
      invariant 0 < used <= |draws|
      invariant forall k :: 0 <= k < used - 1 ==> !Accepted(min, max, draws[k])
      decreases |draws| - used
    {
      used := used + 1;
    }
    v := Pick(min, max, draws[used - 1]);
    PickFits(min, max, draws[used - 1]);
  }

  lemma PickFits(min: nat, max: nat, r: nat)
    requires Bounds(min, max) && max - min < RAND_MAX
    requires Range(min, max) != 0 && Buckets(min, max) != 0 && Accepted(min, max, r)
    ensures min <= Pick(min, max, r) <= max && r in DrawsFor(min, max, Pick(min, max, r))
  {
    hide Buckets, Limit, Index;
    IndexFits(min, max, r);
  }

  lemma IndexFits(min: nat, max: nat, r: nat)
    requires Range(min, max) != 0 && Buckets(min, max) != 0 && Accepted(min, max, r)
    ensures Index(min, max, r) < Range(min, max)
  {
    hide Buckets, Range;
    Quotient(r, Buckets(min, max), Range(min, max));
  }

  // Facts about products and quotients, one at a time.

  lemma Distribute(a: int, b: int, n: int)
    ensures (a + b) * n == a * n + b * n
  {
  }

  lemma Product(a: nat, b: nat)
    ensures a * b >= 0
  {
  }

  lemma Ordered(a: nat, b: nat, n: nat)
    requires a <= b
    ensures a * n <= b * n
  {
    Distribute(b - a, a, n);
    Product(b - a, n);
  }

  lemma Division(r: nat, n: nat)
    requires n > 0
    ensures r == (r / n) * n + r % n && r % n < n
  {
  }

  lemma BucketsPositive(min: nat, max: nat)
    requires Bounds(min, max) && max - min < RAND_MAX
    ensures 1 <= Range(min, max) <= RAND_MAX && Buckets(min, max) >= 1
    ensures Limit(min, max) <= RAND_MAX < Limit(min, max) + Range(min, max)
  {
    Division(RAND_MAX, Range(min, max));
  }

  lemma Quotient(r: nat, buckets: nat, range: nat)
    requires buckets > 0 && r < buckets * range
    ensures r / buckets < range
  {
    var q := r / buckets;
    Division(r, buckets);
    if q >= range { Ordered(range, q, buckets); }
  }

  lemma QuotientIs(r: nat, buckets: nat, q: nat)
    requires buckets > 0
    ensures r / buckets == q <==> q * buckets <= r < q * buckets + buckets
  {
    var p := r / buckets;
    Division(r, buckets);
    if p < q {
      Ordered(p + 1, q, buckets);
      Distribute(p, 1, buckets);
    } else if q < p {
      Ordered(q + 1, p, buckets);
      Distribute(q, 1, buckets);
    }
  }

  predicate Within(r: nat, a: nat, n: nat) { a <= r < a + n }

  ghost function Numbers(a: nat, n: nat): set<nat> { set r: nat | 0 <= r < a + n && Within(r, a, n) }

  lemma {:induction false} NumbersSize(a: nat, n: nat)
    ensures |Numbers(a, n)| == n
  {
    if n == 0 {
      assert Numbers(a, n) == {};
    } else {
      NumbersSize(a, n - 1);
      assert Numbers(a, n) == Numbers(a, n - 1) + {a + n - 1};
    }
  }

  /** The draws of a bucket are an interval, all of it below the limit. */
  lemma BucketOf(b: nat, n: nat, q: nat, r: nat)
    requires b > 0 && q < n
    ensures r < b * n && r / b == q <==> Within(r, q * b, b)
  {
    QuotientIs(r, b, q);
    NextBucket(b, n, q);
  }

  lemma NextBucket(b: nat, n: nat, q: nat)
    requires q < n
    ensures q * b + b <= b * n
  {
    Ordered(q + 1, n, b);
    Distribute(q, 1, b);
  }

  /**
   Exact uniformity: every value of the interval comes from equally many accepted draws, all of them
   results of rand.
   */
  lemma Uniform(min: nat, max: nat, v: nat)
    requires Bounds(min, max) && max - min < RAND_MAX && min <= v <= max
    ensures Range(min, max) != 0 && Buckets(min, max) > 0
    ensures |DrawsFor(min, max, v)| == 0x7FFF_FFFF / (max - min + 1)
    ensures forall r :: r in DrawsFor(min, max, v) ==> Draw(r)
  {
    assert Buckets(min, max) == 0x7FFF_FFFF / (max - min + 1);
    hide Buckets, Within, Numbers;
    BucketsPositive(min, max);
    var b, n, q := Buckets(min, max), Range(min, max), v - min;
    forall r: nat ensures r in DrawsFor(min, max, v) <==> r in Numbers(q * b, b) {
      BucketOf(b, n, q, r);
      InNumbers(q * b, b, r);
    }
    assert DrawsFor(min, max, v) == Numbers(q * b, b);
    NumbersSize(q * b, b);
  }

  /** A greater draw never gives a smaller value. */
  lemma {:induction false} DrawsInOrder(min: nat, max: nat, v: nat, w: nat, r: nat, q: nat)
    requires Bounds(min, max) && max - min < RAND_MAX && Range(min, max) != 0 && Buckets(min, max) > 0
    requires r in DrawsFor(min, max, v) && q in DrawsFor(min, max, w) && r <= q
    ensures v <= w
  {
    hide Buckets, Range;
    var b := Buckets(min, max);
    var m, n := r / b, q / b;
    Division(r, b);
    Division(q, b);
    if n < m {
      Ordered(n + 1, m, b);
      Distribute(n, 1, b);
    }
  }

  lemma InNumbers(a: nat, n: nat, r: nat)
    ensures r in Numbers(a, n) <==> Within(r, a, n)
  {
  }

  /** More than half of the results of rand are accepted. */
  lemma MostlyAccepted(min: nat, max: nat)
    requires Bounds(min, max) && max - min < RAND_MAX
    ensures Range(min, max) != 0 && 2 * Limit(min, max) >= RAND_MAX + 1
  {
    BucketsPositive(min, max);
    assert Limit(min, max) >= Range(min, max);
  }

  /** The loop can end if and only if the interval is smaller than RAND_MAX. */
  lemma CanEnd(min: nat, max: nat)
    requires Bounds(min, max)
    ensures (Range(min, max) != 0 && exists r :: Draw(r) && Accepted(min, max, r)) <==> max - min < RAND_MAX
  {
    if max - min < RAND_MAX {
      BucketsPositive(min, max);
      assert Draw(0) && Accepted(min, max, 0);
    } else if Range(min, max) != 0 {
      assert Range(min, max) > RAND_MAX;
      assert Buckets(min, max) == 0;
    }
  }

  // ------------------------------------------------------------------ the setter

  /** The spread of an event and its flag. */
  datatype Spread = Spread(value: nat, isSet: bool)

  /** lmap_event_set_random_spread on a number that set_uint32 accepts: the value is stored before it is checked. */
  function SetSpread(s: Spread, n: nat): (Spread, bool)
    requires n < UINT_LIMIT
  {
    if n >= RAND_MAX then (Spread(n, s.isSet), false) else (Spread(n, true), true)
  }

  function SetAll(s: Spread, ns: seq<nat>): Spread
    requires forall k :: 0 <= k < |ns| ==> ns[k] < UINT_LIMIT
  {
    if ns == [] then s else SetSpread(SetAll(s, ns[..|ns| - 1]), ns[|ns| - 1]).0
  }

  /** After any calls: a spread that is used is small enough exactly when the last call was accepted, or none was. */
  lemma {:induction false} SpreadBounded(ns: seq<nat>)
    requires forall k :: 0 <= k < |ns| ==> ns[k] < UINT_LIMIT
    ensures var s := SetAll(Spread(0, false), ns);
            && (s.isSet <==> exists k :: 0 <= k < |ns| && ns[k] < RAND_MAX)
            && (ns != [] ==> s.value == ns[|ns| - 1])
            && ((s.isSet ==> s.value < RAND_MAX) <==> ns == [] || ns[|ns| - 1] < RAND_MAX || !s.isSet)
  {
    if ns != [] {
      var m := |ns| - 1;
      SpreadBounded(ns[..m]);
      if ns[m] >= RAND_MAX && SetAll(Spread(0, false), ns).isSet {
        var k :| 0 <= k < m && ns[..m][k] < RAND_MAX;
        assert ns[k] < RAND_MAX;
      }
    }
  }

  /** A rejected value after an accepted one is left in use. */
  lemma RejectedSpreadStays()
    ensures var s := SetAll(Spread(0, false), [5, RAND_MAX]); s.isSet && s.value >= RAND_MAX
  {
    assert [5, RAND_MAX][..1] == [5] && [5][..0] == [];
  }
}
