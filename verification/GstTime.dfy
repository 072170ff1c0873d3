/** Rounding between sample counts and nanosecond timestamps. */
module GstTime {
  import opened Wrappers
  import opened Bytes
  import opened Arithmetic

  const NANOS: nat := 1_000_000_000
  const I64_LIMIT: nat := 0x8000_0000_0000_0000

  /** `gst_time_to_samples`: products of a `u64` and a `u32` never overflow 128 bits. */
  function TimeToSamples(nanoseconds: nat, rate: nat): Option<nat> {
    var rounded := (nanoseconds * rate + 500_000_000) / NANOS;
    if rounded < I64_LIMIT then Some(rounded) else None
  }

  /** `samples_to_gst_time_u64`. */
  function SamplesToTime(samples: nat, rate: nat): Option<nat> {
    if rate == 0 then None
    else
      var rounded := (samples * NANOS + rate / 2) / rate;
      if rounded < U64_LIMIT then Some(rounded) else None
  }

  // ---------------------------------------------------------------- round trip

  /** The timestamp of a sample count is the nearest whole nanosecond, halves going up; there is none exactly
      when the rate is zero or the nearest one needs more than 64 bits. */
  lemma TimeIsNearest(samples: nat, rate: nat)
    ensures SamplesToTime(samples, rate).None? <==> rate == 0 || samples * NANOS + rate / 2 >= U64_LIMIT * rate
    ensures SamplesToTime(samples, rate).Some? ==>
      var t := SamplesToTime(samples, rate).value;
      2 * (samples * NANOS) - rate < 2 * (t * rate) <= 2 * (samples * NANOS) + rate
  {
    if rate > 0 {
      var n := samples * NANOS + rate / 2;
      QuotientRemainder(n, rate);
      Reaches(n, rate, U64_LIMIT);
    }
  }

  /** A quotient reaches a limit exactly when its dividend reaches the limit's multiple. */
  lemma Reaches(n: nat, d: nat, limit: nat)
    requires d > 0
    ensures n / d >= limit <==> n >= limit * d
  {
    QuotientRemainder(n, d);
    if n / d >= limit {
      ProductMonotone(limit, n / d, d);
    } else {
      ProductGap(n / d, limit, d);
    }
  }

  /** The sample of a timestamp is the nearest one, halves going up; there is none exactly when it needs more
      than 63 bits. */
  lemma SampleIsNearest(nanoseconds: nat, rate: nat)
    ensures TimeToSamples(nanoseconds, rate).None? <==> nanoseconds * rate + 500_000_000 >= I64_LIMIT * NANOS
    ensures TimeToSamples(nanoseconds, rate).Some? ==>
      var s := TimeToSamples(nanoseconds, rate).value;
      2 * (nanoseconds * rate) - NANOS < 2 * (s * NANOS) <= 2 * (nanoseconds * rate) + NANOS
  {
    var n := nanoseconds * rate + 500_000_000;
    QuotientRemainder(n, NANOS);
    Reaches(n, NANOS, I64_LIMIT);
  }

  /** Later samples never get an earlier timestamp. */
  lemma TimeMonotone(s: nat, t: nat, rate: nat)
    requires s <= t && SamplesToTime(s, rate).Some? && SamplesToTime(t, rate).Some?
    ensures SamplesToTime(s, rate).value <= SamplesToTime(t, rate).value
  {
    QuotientMonotone(s * NANOS + rate / 2, t * NANOS + rate / 2, rate);
  }

  /** Later timestamps never convert to an earlier sample. */
  lemma SamplesMonotone(a: nat, b: nat, rate: nat)
    requires a <= b && TimeToSamples(a, rate).Some? && TimeToSamples(b, rate).Some?
    ensures TimeToSamples(a, rate).value <= TimeToSamples(b, rate).value
  {
    ProductMonotone(a, b, rate);
    QuotientMonotone(a * rate + 500_000_000, b * rate + 500_000_000, NANOS);
  }

  /** The remainder of `samples * NANOS + rate / 2`, and what it leaves on the way back. */
  lemma RoundingError(samples: nat, rate: nat)
    requires 1 <= rate
    ensures var n := samples * NANOS + rate / 2;
      n / rate * rate == n - n % rate && n % rate < rate
    ensures rate == NANOS ==> (samples * NANOS + rate / 2) % rate == 500_000_000
  {
    QuotientRemainder(samples * NANOS + rate / 2, rate);
    if rate == NANOS {
      var n := samples * NANOS + rate / 2;
      QuotientUnique(n, NANOS, samples, 500_000_000);
    }
  }

  /** Up to one gigahertz every sample count survives the trip through nanoseconds. */
  lemma RoundTrip(samples: nat, rate: nat)
    requires 1 <= rate <= NANOS && samples < I64_LIMIT && SamplesToTime(samples, rate).Some?
    ensures TimeToSamples(SamplesToTime(samples, rate).value, rate) == Some(samples)
  {
    var n := samples * NANOS + rate / 2;
    var r := n % rate;
    RoundingError(samples, rate);
    var back := SamplesToTime(samples, rate).value * rate + 500_000_000;
    assert back == samples * NANOS + (500_000_000 + rate / 2 - r);
    QuotientUnique(back, NANOS, samples, 500_000_000 + rate / 2 - r);
  }

  /** A sample count that survives the trip through nanoseconds. */
  predicate Survives(samples: nat, rate: nat) {
    && SamplesToTime(samples, rate).Some?
    && TimeToSamples(SamplesToTime(samples, rate).value, rate) == Some(samples)
  }

  lemma {:induction false} SurvivorsAreSpread(rate: nat, k: nat)
    requires rate > 0 && forall s :: 0 <= s <= k ==> Survives(s, rate)
    ensures SamplesToTime(k, rate).Some? && SamplesToTime(k, rate).value >= k
  {
    assert Survives(k, rate);
    if k > 0 {
      SurvivorsAreSpread(rate, k - 1);
      assert Survives(k - 1, rate);
      TimeMonotone(k - 1, k, rate);
    }
  }

  /** Beyond one gigahertz some sample count does not: the identity on all counts of the first second
      holds exactly up to that rate. */
  lemma SurvivalLimit(rate: nat)
    requires 1 <= rate < U32_LIMIT
    ensures (forall s :: 0 <= s <= rate ==> Survives(s, rate)) <==> rate <= NANOS
  {
    hide SamplesToTime, TimeToSamples;
    if rate <= NANOS {
      forall s | 0 <= s <= rate
        ensures Survives(s, rate)
      {
        FirstSecondFits(s, rate);
        RoundTrip(s, rate);
      }
    } else if forall s :: 0 <= s <= rate ==> Survives(s, rate) {
      SurvivorsAreSpread(rate, rate);
      OneSecond(rate);
      assert false;
    }
  }

  lemma FirstSecondFits(s: nat, rate: nat)
    requires s <= rate < U32_LIMIT && rate > 0
    ensures SamplesToTime(s, rate).Some? && s < I64_LIMIT
  {
    OneSecond(rate);
    QuotientMonotone(s * NANOS + rate / 2, rate * NANOS + rate / 2, rate);
  }

  lemma OneSecond(rate: nat)
    requires rate > 0
    ensures SamplesToTime(rate, rate) == Some(NANOS)
    ensures (rate * NANOS + rate / 2) / rate == NANOS
  {
    assert rate * NANOS == NANOS * rate;
    QuotientUnique(rate * NANOS + rate / 2, rate, NANOS, rate / 2);
  }
}
