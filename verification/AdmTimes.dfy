/** ADM time strings: the two printers of the exporter and the two readers of the validator. */
module AdmTimes {
  import opened Wrappers
  import opened Bytes
  import opened Arithmetic
  import opened Text

  // ---------------------------------------------------------------- reading

  /** The index of the first `c`, or the length. */
  function IndexOf(s: string, c: char): (i: nat)
    ensures i <= |s|
  {
    if s == "" || s[0] == c then 0 else 1 + IndexOf(s[1..], c)
  }

  function Split(s: string, c: char): (fields: seq<string>)
    ensures |fields| > 0
  {
    var i := IndexOf(s, c);
    if i == |s| then [s] else [s[..i]] + Split(s[i + 1..], c)
  }

  /** A plain decimal numeral: digits with at most one point and at least one digit. */
  function ParsePlain(s: string): Option<real> {
    var i := IndexOf(s, '.');
    PlainValue(s[..i], if i == |s| then "" else s[i + 1..])
  }

  function PlainValue(whole: string, fraction: string): Option<real> {
    if AllDigits(whole, 10) && AllDigits(fraction, 10) && |whole| + |fraction| > 0
    then Some(Value(whole, 10) as real + Value(fraction, 10) as real / Power(10, |fraction|) as real)
    else None
  }

  /** Rust's float parser on signed plain decimals. */
  function ParseFloat(s: string): Option<real> {
    if |s| > 0 && s[0] == '-' then
      var magnitude := ParsePlain(s[1..]);
      if magnitude.Some? then Some(-magnitude.value) else None
    else if |s| > 0 && s[0] == '+' then ParsePlain(s[1..])
    else ParsePlain(s)
  }

  /** The seconds of an ISO form `PT…S`, when `s` has that shape. */
  function IsoBody(s: string): Option<string> {
    if |s| >= 3 && s[0] == 'P' && s[1] == 'T' && s[|s| - 1] == 'S' then Some(s[2..|s| - 1]) else None
  }

  function ParseAdmTimeSeconds(s: string): Option<real> {
    var iso := IsoBody(s);
    if iso.Some? then
      var seconds := ParseFloat(iso.value);
      if seconds.Some? && seconds.value >= 0.0 then seconds else None
    else
      var fields := Split(s, ':');
      if |fields| != 3 then None
      else
        var hours := ParseUnsigned(fields[0], 10, U64_LIMIT);
        var minutes := ParseUnsigned(fields[1], 10, 256);
        var seconds := ParseFloat(fields[2]);
        if hours.Some? && minutes.Some? && minutes.value < 60 && seconds.Some? && 0.0 <= seconds.value < 60.0
        then Some(hours.value as real * 3600.0 + minutes.value as real * 60.0 + seconds.value)
        else None
  }

  predicate IsAdmTime(s: string) {
    var iso := IsoBody(s);
    if iso.Some? then
      var seconds := ParseFloat(iso.value);
      seconds.Some? && seconds.value >= 0.0
    else
      var fields := Split(s, ':');
      && |fields| == 3
      && |fields[0]| >= 2 && AllDigits(fields[0], 10)
      && |fields[1]| == 2
      && (var minutes := ParseUnsigned(fields[1], 10, 256); minutes.Some? && minutes.value < 60)
      && (var seconds := ParseFloat(fields[2]); seconds.Some? && 0.0 <= seconds.value < 60.0)
  }

  function DurationTolerance(rate: nat): real
    requires rate > 0
  {
    0.00001 + 1.0 / rate as real
  }

  // ---------------------------------------------------------------- printing

  /** Sample-domain time of dynamic blocks, truncated to twelve decimals. */
  function FormatTime(samples: nat, rate: nat): string
    requires rate > 0
  {
    "PT" + TimeBody(Div(samples, rate), Picoseconds(Mod(samples, rate), rate)) + "S"
  }

  function TimeBody(whole: nat, fractional: nat): string {
    if fractional == 0 then Natural(whole, 10)
    else Natural(whole, 10) + "." + Padded(fractional, 12, 10)
  }

  /** The `u64` fraction arithmetic, whose multiplication saturates. */
  function Picoseconds(remainder: nat, rate: nat): nat
    requires rate > 0
  {
    var product := remainder * 1_000_000_000_000;
    (if product < U64_LIMIT then product else U64_LIMIT - 1) / rate
  }

  /** Programme time, rounded to five decimals. */
  function FormatAdmTime(samples: nat, rate: nat): string
    requires rate > 0
  {
    var units := TimeUnits(samples, rate);
    var wholeSeconds := units / 100_000;
    Clock(wholeSeconds / 3600, wholeSeconds / 60 % 60, wholeSeconds % 60, units % 100_000)
  }

  function Clock(hours: nat, minutes: nat, seconds: nat, fraction: nat): string {
    Padded(hours, 2, 10) + ":" +
    (Padded(minutes, 2, 10) + ":" + (Padded(seconds, 2, 10) + "." + Padded(fraction, 5, 10)))
  }

  function TimeUnits(samples: nat, rate: nat): nat
    requires rate > 0
  {
    (samples * 100_000 + rate / 2) / rate
  }

  // ---------------------------------------------------------------- round trips

  lemma {:induction false} IndexOfFirst(head: string, c: char, tail: string)
    requires c !in head
    ensures IndexOf(head + [c] + tail, c) == |head|
  {
    var s := head + [c] + tail;
    if head != "" {
      assert head[0] in head && s[0] == head[0];
      assert s[1..] == head[1..] + [c] + tail;
      IndexOfFirst(head[1..], c, tail);
    }
  }

  lemma {:induction false} IndexOfAbsent(s: string, c: char)
    requires c !in s
    ensures IndexOf(s, c) == |s|
  {
    if s != "" {
      IndexOfAbsent(s[1..], c);
    }
  }

  lemma SplitStep(head: string, c: char, tail: string)
    requires c !in head
    ensures Split(head + [c] + tail, c) == [head] + Split(tail, c)
  {
    var s := head + [c] + tail;
    IndexOfFirst(head, c, tail);
    assert s[..|head|] == head && s[|head| + 1..] == tail;
  }

  lemma SplitLast(s: string, c: char)
    requires c !in s
    ensures Split(s, c) == [s]
  {
    IndexOfAbsent(s, c);
  }

  lemma WholeParse(whole: string)
    requires AllDigits(whole, 10) && whole != ""
    ensures ParseFloat(whole) == Some(Value(whole, 10) as real)
  {
    hide ParseFloat, ParsePlain;
    assert DigitAt(whole, 0, 10);
    UnsignedParse(whole, whole[0]);
    hide Value;
    WholeIsPlain(whole);
  }

  lemma WholeIsPlain(whole: string)
    requires AllDigits(whole, 10) && whole != ""
    ensures ParsePlain(whole) == Some(Value(whole, 10) as real)
  {
    DigitsAvoid(whole, 10, '.');
    hide AllDigits, Value;
    IndexOfAbsent(whole, '.');
    assert whole[..|whole|] == whole;
    EmptyValue("");
  }

  lemma EmptyValue(s: string)
    requires s == ""
    ensures Value(s, 10) == 0 && AllDigits(s, 10)
  {
  }

  lemma PointParse(whole: string, fraction: string)
    requires AllDigits(whole, 10) && AllDigits(fraction, 10) && whole != ""
    ensures ParseFloat(whole + "." + fraction) ==
      Some(Value(whole, 10) as real + Value(fraction, 10) as real / Power(10, |fraction|) as real)
  {
    var s := whole + "." + fraction;
    assert DigitAt(whole, 0, 10);
    UnsignedParse(s, whole[0]);
    PlainParts(s, whole, fraction);
  }

  lemma PointParseAs(whole: string, fraction: string, w: nat, f: nat, scale: real)
    requires AllDigits(whole, 10) && AllDigits(fraction, 10) && whole != ""
    requires Value(whole, 10) == w && Value(fraction, 10) == f && Power(10, |fraction|) as real == scale
    requires scale > 0.0
    ensures ParseFloat(whole + "." + fraction) == Some(w as real + f as real / scale)
  {
    hide Value, Power, ParseFloat;
    PointParse(whole, fraction);
  }

  lemma UnsignedParse(s: string, first: char)
    requires |s| > 0 && s[0] == first && DigitValue(first) < 10
    ensures ParseFloat(s) == ParsePlain(s)
  {
    hide ParsePlain;
  }

  lemma PlainParts(s: string, whole: string, fraction: string)
    requires AllDigits(whole, 10) && AllDigits(fraction, 10) && whole != ""
    requires s == whole + "." + fraction
    ensures ParsePlain(s) ==
      Some(Value(whole, 10) as real + Value(fraction, 10) as real / Power(10, |fraction|) as real)
  {
    hide Value, Power, PlainValue;
    DigitsAvoid(whole, 10, '.');
    hide AllDigits;
    PartsAtPoint(s, whole, fraction);
    PlainIsDecimal(whole, fraction);
  }

  lemma PlainIsDecimal(whole: string, fraction: string)
    requires AllDigits(whole, 10) && AllDigits(fraction, 10) && whole != ""
    ensures PlainValue(whole, fraction) ==
      Some(Value(whole, 10) as real + Value(fraction, 10) as real / Power(10, |fraction|) as real)
  {
    hide Value, Power, AllDigits;
  }

  lemma PartsAtPoint(s: string, whole: string, fraction: string)
    requires s == whole + "." + fraction && '.' !in whole
    ensures IndexOf(s, '.') == |whole| < |s|
    ensures s[..|whole|] == whole && s[|whole| + 1..] == fraction
  {
    assert s == whole + ['.'] + fraction;
    IndexOfFirst(whole, '.', fraction);
  }

  /** The sample count a block time denotes. */
  function SamplesOf(seconds: real, rate: nat): int
    requires rate > 0
  {
    var exact := seconds * rate as real;
    if exact.Floor as real == exact then exact.Floor else exact.Floor + 1
  }

  lemma ParseOfFormatTime(samples: nat, rate: nat)
    requires rate > 0
    ensures ParseAdmTimeSeconds(FormatTime(samples, rate)) ==
      Some(Div(samples, rate) as real + Picoseconds(Mod(samples, rate), rate) as real / 1_000_000_000_000.0)
    ensures IsAdmTime(FormatTime(samples, rate))
  {
    hide *;
    var whole, fractional := Div(samples, rate), Picoseconds(Mod(samples, rate), rate);
    FractionBelow(Mod(samples, rate), rate);
    BodyParse(whole, fractional);
    NotNegative(whole, fractional, ParseFloat(TimeBody(whole, fractional)));
    IsoForm(TimeBody(whole, fractional));
    FormatTimeIs(samples, rate);
  }

  lemma FormatTimeIs(samples: nat, rate: nat)
    requires rate > 0
    ensures FormatTime(samples, rate) ==
      "PT" + TimeBody(Div(samples, rate), Picoseconds(Mod(samples, rate), rate)) + "S"
  {
    hide TimeBody, Picoseconds, Div, Mod;
  }

  lemma NotNegative(whole: nat, fractional: nat, parsed: Option<real>)
    requires parsed == Some(whole as real + fractional as real / 1_000_000_000_000.0)
    ensures parsed.value >= 0.0
  {
  }

  lemma NaturalIsNumeral(n: nat)
    ensures AllDigits(Natural(n, 10), 10) && Natural(n, 10) != "" && Value(Natural(n, 10), 10) == n
  {
  }

  lemma BodyParse(whole: nat, fractional: nat)
    requires fractional < 1_000_000_000_000
    ensures ParseFloat(TimeBody(whole, fractional)) == Some(whole as real + fractional as real / 1_000_000_000_000.0)
  {
    hide *;
    TimeBodyIs(whole, fractional);
    NaturalIsNumeral(whole);
    if fractional == 0 {
      WholeParse(Natural(whole, 10));
      WithoutFraction(whole, ParseFloat(Natural(whole, 10)));
    } else {
      TwelveDigits(fractional);
      FractionParse(Natural(whole, 10), Padded(fractional, 12, 10), whole, fractional);
    }
  }

  lemma TimeBodyIs(whole: nat, fractional: nat)
    ensures fractional == 0 ==> TimeBody(whole, fractional) == Natural(whole, 10)
    ensures fractional != 0 ==> TimeBody(whole, fractional) == Natural(whole, 10) + "." + Padded(fractional, 12, 10)
  {
    hide Natural, Padded;
  }

  lemma WithoutFraction(whole: nat, parsed: Option<real>)
    requires parsed == Some(whole as real)
    ensures parsed == Some(whole as real + 0 as real / 1_000_000_000_000.0)
  {
  }

  lemma FractionParse(whole: string, fraction: string, w: nat, f: nat)
    requires AllDigits(whole, 10) && AllDigits(fraction, 10) && whole != ""
    requires Value(whole, 10) == w && Value(fraction, 10) == f && Power(10, |fraction|) as real == 1_000_000_000_000.0
    ensures ParseFloat(whole + "." + fraction) == Some(w as real + f as real / 1_000_000_000_000.0)
  {
    hide AllDigits, Value, Power, ParseFloat;
    PointParseAs(whole, fraction, w, f, 1_000_000_000_000.0);
  }

  lemma IsoForm(body: string)
    requires ParseFloat(body).Some? && ParseFloat(body).value >= 0.0
    ensures ParseAdmTimeSeconds("PT" + body + "S") == ParseFloat(body)
    ensures IsAdmTime("PT" + body + "S")
  {
    hide ParseFloat;
    var text := "PT" + body + "S";
    assert text[2..|text| - 1] == body;
  }

  lemma TwelveDigits(fractional: nat)
    requires fractional < 1_000_000_000_000
    ensures |Padded(fractional, 12, 10)| == 12 && Power(10, 12) as real == 1_000_000_000_000.0
    ensures AllDigits(Padded(fractional, 12, 10), 10)
    ensures Value(Padded(fractional, 12, 10), 10) == fractional
  {
    assert Power(10, 12) == 1_000_000_000_000 by { DecimalPowers(); }
    ValueOfPadded(fractional, 12, 10);
  }

  /** The printed fraction is the truncated quotient of a product that stops at the greatest 64-bit number. */
  lemma PicosecondsAre(remainder: nat, rate: nat)
    requires rate > 0
    ensures var product: nat, f := remainder * 1_000_000_000_000, Picoseconds(remainder, rate);
      if product < U64_LIMIT then f * rate <= product < f * rate + rate
      else f * rate <= U64_LIMIT - 1 < f * rate + rate
  {
    var product: nat := remainder * 1_000_000_000_000;
    QuotientRemainder(if product < U64_LIMIT then product else U64_LIMIT - 1, rate);
  }

  /** Whatever the rate, the fraction has at most twelve digits. */
  lemma FractionBelow(remainder: nat, rate: nat)
    requires remainder < rate
    ensures Picoseconds(remainder, rate) < 1_000_000_000_000
  {
    var f := Picoseconds(remainder, rate);
    PicosecondsAre(remainder, rate);
    if f >= 1_000_000_000_000 {
      ProductMonotone(1_000_000_000_000, f, rate);
    }
  }

  /** The greatest rate at which every sample count is recovered. */
  const RATE_LIMIT: nat := 18_446_746

  /** Truncation to twelve decimals, and saturation up to `RATE_LIMIT`, loses nothing: the sample count comes back
      from the parsed time, so distinct sample counts print differently. */
  lemma TimeRoundTrip(samples: nat, rate: nat)
    requires 0 < rate <= RATE_LIMIT
    ensures ParseAdmTimeSeconds(FormatTime(samples, rate)).Some?
    ensures SamplesOf(ParseAdmTimeSeconds(FormatTime(samples, rate)).value, rate) == samples
  {
    hide ParseAdmTimeSeconds, FormatTime, Picoseconds, Div, Mod;
    var r := Mod(samples, rate);
    var f := Picoseconds(r, rate);
    ParseOfFormatTime(samples, rate);
    PicosecondsAre(r, rate);
    CeilRecovers(Div(samples, rate), r, f, rate);
    DivMod(samples, rate);
  }

  lemma CeilRecovers(q: nat, r: nat, f: nat, rate: nat)
    requires rate > 0 && (r as int - 1) * 1_000_000_000_000 < f * rate <= r * 1_000_000_000_000
    ensures SamplesOf(q as real + f as real / 1_000_000_000_000.0, rate) == q * rate + r
  {
    SamplesAre(q, f, rate);
    var part := (f * rate) as real / 1_000_000_000_000.0;
    assert r as real - 1.0 < part <= r as real;
  }

  lemma SamplesAre(q: nat, f: nat, rate: nat)
    requires rate > 0
    ensures var exact := (q * rate) as real + (f * rate) as real / 1_000_000_000_000.0;
      SamplesOf(q as real + f as real / 1_000_000_000_000.0, rate) ==
        if exact.Floor as real == exact then exact.Floor else exact.Floor + 1
  {
    var seconds := q as real + f as real / 1_000_000_000_000.0;
    assert seconds * rate as real == (q * rate) as real + (f * rate) as real / 1_000_000_000_000.0;
  }

  /** Above that rate the saturated product loses the last sample of the first second. */
  lemma SaturationLoses(rate: nat)
    requires rate > RATE_LIMIT
    ensures var read := ParseAdmTimeSeconds(FormatTime(rate - 1, rate));
      read.Some? && SamplesOf(read.value, rate) < rate - 1
  {
    hide ParseAdmTimeSeconds, FormatTime, Picoseconds, Div, Mod;
    ParseOfFormatTime(rate - 1, rate);
    LastSample(rate);
    var f := Picoseconds(rate - 1, rate);
    PicosecondsAre(rate - 1, rate);
    SamplesAre(0, f, rate);
    assert (f * rate) as real / 1_000_000_000_000.0 <= 18_446_745.0;
  }

  lemma LastSample(rate: nat)
    requires rate > 0
    ensures Div(rate - 1, rate) == 0 && Mod(rate - 1, rate) == rate - 1
  {
    QuotientUnique(rate - 1, rate, 0, rate - 1);
  }

  /** Every sample count is recovered exactly at the rates up to the limit. */
  lemma RoundTripLimit(rate: nat)
    requires rate > 0
    ensures rate <= RATE_LIMIT <==>
      forall samples: nat ::
        var read := ParseAdmTimeSeconds(FormatTime(samples, rate));
        read.Some? && SamplesOf(read.value, rate) == samples
  {
    hide ParseAdmTimeSeconds, FormatTime, SamplesOf;
    if rate <= RATE_LIMIT {
      forall samples: nat
        ensures var read := ParseAdmTimeSeconds(FormatTime(samples, rate));
          read.Some? && SamplesOf(read.value, rate) == samples
      {
        TimeRoundTrip(samples, rate);
      }
    } else {
      SaturationLoses(rate);
    }
  }

  /** `format_adm_time` prints minutes and seconds below sixty that recombine to the rounded time. */
  lemma ParseOfFormatAdmTime(samples: nat, rate: nat)
    requires rate > 0 && samples < U64_LIMIT
    ensures ParseAdmTimeSeconds(FormatAdmTime(samples, rate)) == Some(TimeUnits(samples, rate) as real / 100_000.0)
    ensures IsAdmTime(FormatAdmTime(samples, rate))
  {
    hide Clock, ParseAdmTimeSeconds, IsAdmTime;
    var units := TimeUnits(samples, rate);
    var whole := units / 100_000;
    UnitsBound(samples, rate);
    ClockFields(whole / 3600, whole / 60 % 60, whole % 60, units % 100_000);
    Recombine(units);
  }

  lemma ClockFields(h: nat, m: nat, s: nat, f: nat)
    requires h < U64_LIMIT && m < 60 && s < 60 && f < 100_000
    ensures IsAdmTime(Clock(h, m, s, f))
    ensures ParseAdmTimeSeconds(Clock(h, m, s, f)) ==
      Some(h as real * 3600.0 + m as real * 60.0 + (s as real + f as real / 100_000.0))
  {
    hide Padded, ParseUnsigned, ParseFloat, ParseAdmTimeSeconds, IsAdmTime, AllDigits;
    FieldFacts(h, m, s, f);
    var hours, minutes, seconds, fraction := Padded(h, 2, 10), Padded(m, 2, 10), Padded(s, 2, 10), Padded(f, 5, 10);
    DigitsAvoid(hours, 10, ':');
    DigitsAvoid(minutes, 10, ':');
    DigitsAvoid(seconds, 10, ':');
    DigitsAvoid(fraction, 10, ':');
    ClockParse(hours, minutes, seconds + "." + fraction);
  }

  lemma ClockParse(hours: string, minutes: string, seconds: string)
    requires ':' !in hours && ':' !in minutes && ':' !in seconds
    requires |hours| >= 2 && AllDigits(hours, 10) && |minutes| == 2
    requires ParseUnsigned(hours, 10, U64_LIMIT).Some?
    requires ParseUnsigned(minutes, 10, 256).Some? && ParseUnsigned(minutes, 10, 256).value < 60
    requires ParseFloat(seconds).Some? && 0.0 <= ParseFloat(seconds).value < 60.0
    ensures var s := hours + ":" + (minutes + ":" + seconds);
      && IsAdmTime(s)
      && ParseAdmTimeSeconds(s) == Some(
           ParseUnsigned(hours, 10, U64_LIMIT).value as real * 3600.0 +
           ParseUnsigned(minutes, 10, 256).value as real * 60.0 + ParseFloat(seconds).value)
  {
    hide Split, IsoBody, ParseUnsigned, ParseFloat;
    SplitClock(hours, minutes, seconds);
    assert DigitAt(hours, 0, 10);
    NotIso(hours + ":" + (minutes + ":" + seconds), hours[0]);
  }

  lemma NotIso(s: string, first: char)
    requires |s| > 0 && s[0] == first && DigitValue(first) < 10
    ensures IsoBody(s) == None
  {
  }

  lemma SplitClock(hours: string, minutes: string, seconds: string)
    requires ':' !in hours && ':' !in minutes && ':' !in seconds
    ensures Split(hours + ":" + (minutes + ":" + seconds), ':') == [hours, minutes, seconds]
  {
    SplitStep(hours, ':', minutes + ":" + seconds);
    SplitStep(minutes, ':', seconds);
    SplitLast(seconds, ':');
    hide Split;
    assert hours + ":" + (minutes + ":" + seconds) == hours + [':'] + (minutes + ":" + seconds);
    assert minutes + ":" + seconds == minutes + [':'] + seconds;
  }

  lemma UnitsBound(samples: nat, rate: nat)
    requires rate > 0 && samples < U64_LIMIT
    ensures TimeUnits(samples, rate) / 100_000 / 3600 < U64_LIMIT
  {
    var units := TimeUnits(samples, rate);
    QuotientRemainder(samples * 100_000 + rate / 2, rate);
    assert units <= samples * 100_000 + 1 by {
      if units >= samples * 100_000 + 2 {
        ProductMonotone(samples * 100_000 + 2, units, rate);
        ProductMonotone(1, rate, samples * 100_000);
      }
    }
  }

  lemma FieldFacts(hours: nat, minutes: nat, seconds: nat, fraction: nat)
    requires hours < U64_LIMIT && minutes < 60 && seconds < 60 && fraction < 100_000
    ensures ParseUnsigned(Padded(hours, 2, 10), 10, U64_LIMIT) == Some(hours)
    ensures ParseUnsigned(Padded(minutes, 2, 10), 10, 256) == Some(minutes)
    ensures |Padded(minutes, 2, 10)| == 2
    ensures ParseFloat(Padded(seconds, 2, 10) + "." + Padded(fraction, 5, 10)) ==
      Some(seconds as real + fraction as real / 100_000.0)
    ensures seconds as real + fraction as real / 100_000.0 < 60.0
  {
    hide Padded, ParseUnsigned, ParseFloat;
    NumeralField(hours, U64_LIMIT);
    NumeralField(minutes, 256);
    TwoDigits(minutes);
    SecondsField(seconds, fraction);
  }

  lemma NumeralField(n: nat, limit: nat)
    requires n < limit
    ensures ParseUnsigned(Padded(n, 2, 10), 10, limit) == Some(n)
  {
    hide Padded, ParseUnsigned;
    ValueOfPadded(n, 2, 10);
    ParseDigits(Padded(n, 2, 10), 10, limit);
  }

  lemma SecondsField(seconds: nat, fraction: nat)
    requires seconds < 60 && fraction < 100_000
    ensures ParseFloat(Padded(seconds, 2, 10) + "." + Padded(fraction, 5, 10)) ==
      Some(seconds as real + fraction as real / 100_000.0)
  {
    hide *;
    TwoDigits(seconds);
    FiveDigits(fraction);
    SecondsParse(Padded(seconds, 2, 10), Padded(fraction, 5, 10), seconds, fraction);
  }

  lemma SecondsParse(whole: string, fraction: string, w: nat, f: nat)
    requires AllDigits(whole, 10) && AllDigits(fraction, 10) && whole != ""
    requires Value(whole, 10) == w && Value(fraction, 10) == f && Power(10, |fraction|) as real == 100_000.0
    ensures ParseFloat(whole + "." + fraction) == Some(w as real + f as real / 100_000.0)
  {
    hide AllDigits, Value, Power, ParseFloat;
    PointParseAs(whole, fraction, w, f, 100_000.0);
  }

  lemma TwoDigits(n: nat)
    requires n < 100
    ensures |Padded(n, 2, 10)| == 2 && Value(Padded(n, 2, 10), 10) == n && AllDigits(Padded(n, 2, 10), 10)
  {
    assert Power(10, 2) == 100 by { DecimalPowers(); }
    ValueOfPadded(n, 2, 10);
  }

  lemma FiveDigits(n: nat)
    requires n < 100_000
    ensures |Padded(n, 5, 10)| == 5 && Value(Padded(n, 5, 10), 10) == n && AllDigits(Padded(n, 5, 10), 10)
    ensures Power(10, 5) as real == 100_000.0
  {
    assert Power(10, 5) == 100_000 by { DecimalPowers(); }
    ValueOfPadded(n, 5, 10);
  }

  lemma Recombine(units: nat)
    ensures var whole := units / 100_000;
      (whole / 3600) as real * 3600.0 + (whole / 60 % 60) as real * 60.0 +
      ((whole % 60) as real + (units % 100_000) as real / 100_000.0) == units as real / 100_000.0
  {
    var whole := units / 100_000;
    assert whole == whole / 3600 * 3600 + whole / 60 % 60 * 60 + whole % 60;
    assert units == whole * 100_000 + units % 100_000;
  }

  /** The printed programme time is within half a unit of the exact time, hence always inside the
      validator's tolerance. */
  lemma PrintedTimeIsClose(samples: nat, rate: nat)
    requires rate > 0
    ensures var printed, exact := TimeUnits(samples, rate) as real / 100_000.0, samples as real / rate as real;
      && -0.000005 <= printed - exact <= 0.000005
      && -DurationTolerance(rate) < printed - exact < DurationTolerance(rate)
  {
    var units := TimeUnits(samples, rate);
    QuotientRemainder(samples * 100_000 + rate / 2, rate);
    var exact, r := samples as real / rate as real, rate as real;
    assert exact * r == samples as real;
    assert 2 * units * rate <= 2 * (samples * 100_000) + rate;
    assert 2 * units * rate > 2 * (samples * 100_000) + 2 * (rate / 2) - 2 * rate >= 2 * (samples * 100_000) - rate - 1;
    assert 2 * units * rate >= 2 * (samples * 100_000) - rate;
    ScaledBound(units, samples, rate);
    assert 1.0 / r > 0.0;
  }

  lemma ScaledBound(units: nat, samples: nat, rate: nat)
    requires rate > 0
    requires 2 * (samples * 100_000) - rate <= 2 * units * rate <= 2 * (samples * 100_000) + rate
    ensures -0.000005 <= units as real / 100_000.0 - samples as real / rate as real <= 0.000005
  {
    var r, u, e := rate as real, units as real, samples as real / rate as real;
    assert e * r == samples as real;
    var p, x := u * r, samples as real;
    assert p == (units * rate) as real;
    assert 2 * units * rate == 2 * (units * rate);
    assert 200_000.0 * x - r <= 2.0 * p <= 200_000.0 * x + r;
    Cancel(u, e, r, p, x);
  }

  lemma Cancel(u: real, e: real, r: real, p: real, x: real)
    requires r > 0.0 && p == u * r && x == e * r
    requires 200_000.0 * x - r <= 2.0 * p <= 200_000.0 * x + r
    ensures 200_000.0 * e - 1.0 <= 2.0 * u <= 200_000.0 * e + 1.0
  {
    var above, below := 2.0 * u - 200_000.0 * e - 1.0, 200_000.0 * e - 1.0 - 2.0 * u;
    assert above * r == 2.0 * p - 200_000.0 * x - r;
    assert below * r == 200_000.0 * x - r - 2.0 * p;
    NonPositive(above, r);
    NonPositive(below, r);
  }

  lemma NonPositive(d: real, r: real)
    requires r > 0.0 && d * r <= 0.0
    ensures d <= 0.0
  {
  }

  // ---------------------------------------------------------------- what the readers accept

  lemma {:induction false} IndexOfMeans(s: string, c: char)
    ensures c !in s[..IndexOf(s, c)]
    ensures IndexOf(s, c) < |s| ==> s[IndexOf(s, c)] == c
  {
    if s != "" && s[0] != c {
      IndexOfMeans(s[1..], c);
      assert s[..IndexOf(s, c)] == [s[0]] + s[1..][..IndexOf(s[1..], c)];
    }
  }

  function Joined(fields: seq<string>, c: char): string
    requires fields != []
  {
    if |fields| == 1 then fields[0] else fields[0] + [c] + Joined(fields[1..], c)
  }

  /** Splitting cuts at every separator, and nowhere else. */
  lemma {:induction false} SplitMeans(s: string, c: char)
    ensures Joined(Split(s, c), c) == s
    ensures forall i :: 0 <= i < |Split(s, c)| ==> c !in Split(s, c)[i]
    decreases |s|
  {
    IndexOfMeans(s, c);
    var i := IndexOf(s, c);
    if i == |s| {
      assert s[..i] == s;
    } else {
      SplitMeans(s[i + 1..], c);
      assert Split(s, c)[1..] == Split(s[i + 1..], c);
      assert s == s[..i] + [c] + s[i + 1..];
    }
  }

  /** `s` has these three fields. */
  predicate HasFields(s: string, a: string, b: string, c: string) {
    s == a + ":" + (b + ":" + c) && ':' !in a && ':' !in b && ':' !in c
  }

  lemma SplitThree(s: string, a: string, b: string, c: string)
    ensures Split(s, ':') == [a, b, c] <==> HasFields(s, a, b, c)
  {
    hide Split;
    if HasFields(s, a, b, c) {
      var rest := b + ":" + c;
      assert s == a + [':'] + rest && rest == b + [':'] + c;
      SplitStep(a, ':', rest);
      SplitStep(b, ':', c);
      SplitLast(c, ':');
    }
    if Split(s, ':') == [a, b, c] {
      SplitMeans(s, ':');
      assert [a, b, c][1..] == [b, c] && [b, c][1..] == [c];
      assert [a, b, c][0] == a && [a, b, c][1] == b && [a, b, c][2] == c;
      assert Joined([c], ':') == c && Joined([b, c], ':') == b + [':'] + c;
    }
  }

  /** `s` writes the value with these digits before and behind the point. */
  ghost predicate Decimal(s: string, whole: string, fraction: string, v: real) {
    && (s == whole + "." + fraction || (s == whole && fraction == ""))
    && AllDigits(whole, 10) && AllDigits(fraction, 10) && |whole| + |fraction| > 0
    && v == Value(whole, 10) as real + Value(fraction, 10) as real / Power(10, |fraction|) as real
  }

  ghost predicate IsDecimal(s: string, v: real) {
    exists whole, fraction :: Decimal(s, whole, fraction, v)
  }

  lemma PlainMeans(s: string, v: real)
    ensures ParsePlain(s) == Some(v) <==> IsDecimal(s, v)
  {
    hide Value, Power, AllDigits;
    var i := IndexOf(s, '.');
    if ParsePlain(s) == Some(v) {
      IndexOfMeans(s, '.');
      var whole, fraction := s[..i], if i == |s| then "" else s[i + 1..];
      if i < |s| {
        assert s == whole + "." + fraction;
      } else {
        assert s == whole;
      }
      assert Decimal(s, whole, fraction, v);
    }
    if whole, fraction :| Decimal(s, whole, fraction, v) {
      NoPoint(whole);
      if s == whole + "." + fraction {
        PartsAtPoint(s, whole, fraction);
      } else {
        IndexOfAbsent(whole, '.');
        assert s[..|s|] == whole;
      }
    }
  }

  lemma NoPoint(digits: string)
    requires AllDigits(digits, 10)
    ensures '.' !in digits
  {
    DigitsAvoid(digits, 10, '.');
  }

  lemma DecimalStart(s: string, v: real)
    requires IsDecimal(s, v)
    ensures s != "" && s[0] != '-' && s[0] != '+'
  {
    hide Value, Power;
    var whole, fraction :| Decimal(s, whole, fraction, v);
    if whole != "" {
      assert DigitAt(whole, 0, 10) && s[0] == whole[0];
    }
  }

  /** A number is a decimal, perhaps behind a sign. */
  lemma FloatMeans(s: string, v: real)
    ensures ParseFloat(s) == Some(v) <==>
      || IsDecimal(s, v)
      || (exists t :: s == "+" + t && IsDecimal(t, v))
      || (exists t :: s == "-" + t && IsDecimal(t, -v))
  {
    hide IsDecimal, ParsePlain;
    PlainMeans(s, v);
    if IsDecimal(s, v) {
      DecimalStart(s, v);
    }
    if |s| > 0 {
      PlainMeans(s[1..], v);
      PlainMeans(s[1..], -v);
      assert s == [s[0]] + s[1..];
    }
    if t :| s == "+" + t && IsDecimal(t, v) {
      assert s[1..] == t && s[0] == '+';
    }
    if t :| s == "-" + t && IsDecimal(t, -v) {
      assert s[1..] == t && s[0] == '-';
    }
  }

  ghost predicate IsIso(s: string, t: real) {
    exists body :: s == "PT" + body + "S" && ParseFloat(body) == Some(t) && t >= 0.0
  }

  ghost predicate IsClock(s: string, hours: nat, minutes: nat, seconds: real) {
    exists h, m, r ::
      && HasFields(s, h, m, r) && ParseUnsigned(h, 10, U64_LIMIT) == Some(hours)
      && ParseUnsigned(m, 10, 256) == Some(minutes) && minutes < 60
      && ParseFloat(r) == Some(seconds) && 0.0 <= seconds < 60.0
  }

  lemma IsoMeans(s: string, t: real)
    ensures IsIso(s, t) <==> IsoBody(s).Some? && ParseFloat(IsoBody(s).value) == Some(t) && t >= 0.0
  {
    hide ParseFloat;
    if body :| s == "PT" + body + "S" && ParseFloat(body) == Some(t) && t >= 0.0 {
      assert s[2..|s| - 1] == body;
    }
    if IsoBody(s).Some? {
      assert s == "PT" + s[2..|s| - 1] + "S";
    }
  }

  lemma ClockIsNotIso(s: string, hours: nat, minutes: nat, seconds: real)
    requires IsClock(s, hours, minutes, seconds)
    ensures IsoBody(s) == None
  {
    hide ParseFloat, Value;
    var h, m, r :| && HasFields(s, h, m, r) && ParseUnsigned(h, 10, U64_LIMIT) == Some(hours)
      && ParseUnsigned(m, 10, 256) == Some(minutes) && minutes < 60
      && ParseFloat(r) == Some(seconds) && 0.0 <= seconds < 60.0;
    assert s[0] == h[0];
    assert h[0] == '+' || DigitAt(h, 0, 10);
  }

  lemma ClockMeans(s: string, hours: nat, minutes: nat, seconds: real)
    ensures IsClock(s, hours, minutes, seconds) <==>
      var fields := Split(s, ':');
      && |fields| == 3 && ParseUnsigned(fields[0], 10, U64_LIMIT) == Some(hours)
      && ParseUnsigned(fields[1], 10, 256) == Some(minutes) && minutes < 60
      && ParseFloat(fields[2]) == Some(seconds) && 0.0 <= seconds < 60.0
  {
    hide Split, ParseFloat, ParseUnsigned, HasFields;
    var fields := Split(s, ':');
    if |fields| == 3 {
      assert fields == [fields[0], fields[1], fields[2]];
      SplitThree(s, fields[0], fields[1], fields[2]);
    }
    if IsClock(s, hours, minutes, seconds) {
      var h, m, r :| && HasFields(s, h, m, r) && ParseUnsigned(h, 10, U64_LIMIT) == Some(hours)
        && ParseUnsigned(m, 10, 256) == Some(minutes) && minutes < 60
        && ParseFloat(r) == Some(seconds) && 0.0 <= seconds < 60.0;
      SplitThree(s, h, m, r);
    }
  }

  /** A time is a number of seconds in the ISO form, or hours, minutes and seconds with the latter two below sixty. */
  lemma SecondsMean(s: string, t: real)
    ensures ParseAdmTimeSeconds(s) == Some(t) <==>
      || IsIso(s, t)
      || exists hours: nat, minutes: nat, seconds ::
           IsClock(s, hours, minutes, seconds) && t == hours as real * 3600.0 + minutes as real * 60.0 + seconds
  {
    hide IsIso, IsClock, IsoBody, Split, ParseFloat, ParseUnsigned;
    IsoMeans(s, t);
    forall hours: nat, minutes: nat, seconds
      ensures IsClock(s, hours, minutes, seconds) <==>
        var fields := Split(s, ':');
        && |fields| == 3 && ParseUnsigned(fields[0], 10, U64_LIMIT) == Some(hours)
        && ParseUnsigned(fields[1], 10, 256) == Some(minutes) && minutes < 60
        && ParseFloat(fields[2]) == Some(seconds) && 0.0 <= seconds < 60.0
      ensures IsClock(s, hours, minutes, seconds) ==> IsoBody(s) == None
    {
      ClockMeans(s, hours, minutes, seconds);
      if IsClock(s, hours, minutes, seconds) {
        ClockIsNotIso(s, hours, minutes, seconds);
      }
    }
  }

  /** The stricter syntax of block times: at least two digits for the hours and two characters for the minutes, but no
      limit on the hours. */
  ghost predicate IsStrictClock(s: string) {
    exists h, m, r, minutes: nat, seconds ::
      && HasFields(s, h, m, r) && |h| >= 2 && AllDigits(h, 10)
      && |m| == 2 && ParseUnsigned(m, 10, 256) == Some(minutes) && minutes < 60
      && ParseFloat(r) == Some(seconds) && 0.0 <= seconds < 60.0
  }

  lemma BlockTimesMean(s: string)
    ensures IsAdmTime(s) <==> (exists t :: IsIso(s, t)) || IsStrictClock(s)
  {
    hide IsIso, IsoBody, Split, ParseFloat, ParseUnsigned, HasFields, AllDigits;
    forall t
      ensures IsIso(s, t) <==> IsoBody(s).Some? && ParseFloat(IsoBody(s).value) == Some(t) && t >= 0.0
    {
      IsoMeans(s, t);
    }
    var fields := Split(s, ':');
    if |fields| == 3 {
      assert fields == [fields[0], fields[1], fields[2]];
      SplitThree(s, fields[0], fields[1], fields[2]);
    }
    if IsStrictClock(s) {
      var h, m, r, minutes: nat, seconds :| && HasFields(s, h, m, r) && |h| >= 2 && AllDigits(h, 10)
        && |m| == 2 && ParseUnsigned(m, 10, 256) == Some(minutes) && minutes < 60
        && ParseFloat(r) == Some(seconds) && 0.0 <= seconds < 60.0;
      SplitThree(s, h, m, r);
      StrictIsNotIso(s, h, m, r);
    }
  }

  lemma StrictIsNotIso(s: string, h: string, m: string, r: string)
    requires HasFields(s, h, m, r) && |h| >= 2 && AllDigits(h, 10)
    ensures IsoBody(s) == None
  {
    assert s[0] == h[0] && DigitAt(h, 0, 10);
  }

  /** The printed programme time is the nearest one, and the later one when two are as near. */
  lemma UnitsAreNearest(samples: nat, rate: nat)
    requires rate > 0
    ensures var error := 2 * (TimeUnits(samples, rate) * rate) - 2 * (samples * 100_000);
      -(rate as int) < error <= rate
  {
    QuotientRemainder(samples * 100_000 + rate / 2, rate);
  }
}
