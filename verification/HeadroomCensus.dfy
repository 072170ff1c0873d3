/** Bounded statistics over the PCM samples in front of the quantizer. */
module HeadroomCensus {
  import opened Wrappers
  import opened Bytes
  import opened AdmErrors
  import opened AdmPcm

  datatype Stream = BaseLfe | Row(index: nat)

  /** One observed sample: its signal, its position and its value. */
  datatype Observation = Observation(stream: Stream, sample: nat, value: Sample)

  const MAX: nat := U64_LIMIT - 1

  /** A `u64` counter that has counted to `n`, saturating. */
  function Sat(n: nat): (r: nat)
    ensures r < U64_LIMIT && r <= n && (r == n || r == U64_LIMIT - 1)
  {
    if n < MAX then n else MAX
  }

  function SaturatingAdd(n: nat, k: nat): nat {
    Sat(n + k)
  }

  // ---------------------------------------------------------------- what is counted

  datatype Class = Any | Real | NotReal | Outside | Above | Below

  predicate Is(c: Class, s: Sample) {
    match c
    case Any => true
    case Real => s.Finite?
    case NotReal => s.NonFinite?
    case Outside => s.Finite? && (s.value > 1.0 || s.value < -1.0)
    case Above => s.Finite? && s.value > 1.0
    case Below => s.Finite? && s.value < -1.0
  }

  /** What the census counts is what the exporter would refuse. */
  lemma RefusalsAreCounted(track: nat, sample: nat, s: Sample)
    ensures QuantizeS24(track, sample, s).Ok? <==> Is(Real, s) && !Is(Outside, s)
    ensures Is(NotReal, s) <==> QuantizeS24(track, sample, s) == Err(NonFiniteSample(track, sample))
    ensures Is(Outside, s) <==>
      s.Finite? && QuantizeS24(track, sample, s) == Err(SampleOutOfRange(track, sample, s.value))
  {
  }

  function Count(h: seq<Observation>, c: Class): nat {
    if h == [] then 0 else Count(h[..|h| - 1], c) + (if Is(c, h[|h| - 1].value) then 1 else 0)
  }

  /** Length of the run of out-of-range samples that ends the history. */
  function SuffixRun(h: seq<Observation>): nat {
    if h == [] || !Is(Outside, h[|h| - 1].value) then 0 else SuffixRun(h[..|h| - 1]) + 1
  }

  function LongestRun(h: seq<Observation>): nat {
    if h == [] then 0
    else
      var before, now := LongestRun(h[..|h| - 1]), SuffixRun(h);
      if before < now then now else before
  }

  /** Every sample of the window is out of range. */
  ghost predicate AllOutside(h: seq<Observation>, from: nat, to: nat)
    requires to <= |h|
  {
    forall k :: from <= k < to ==> Is(Outside, h[k].value)
  }

  ghost predicate RunAt(h: seq<Observation>, from: nat, run: nat) {
    from + run <= |h| && AllOutside(h, from, from + run)
  }

  /** The longest run is the length of a longest window of consecutive out-of-range samples. */
  lemma {:induction false} LongestRunIsMaximal(h: seq<Observation>, from: nat, to: nat)
    requires from <= to <= |h| && AllOutside(h, from, to)
    ensures to - from <= LongestRun(h)
  {
    if h != [] {
      var n := |h| - 1;
      if to <= n {
        assert forall k :: from <= k < to ==> h[..n][k] == h[k];
        LongestRunIsMaximal(h[..n], from, to);
      } else {
        SuffixRunIsMaximal(h, from);
      }
    }
  }

  lemma {:induction false} SuffixRunIsMaximal(h: seq<Observation>, from: nat)
    requires from <= |h| && AllOutside(h, from, |h|)
    ensures |h| - from <= SuffixRun(h)
  {
    if from < |h| {
      var n := |h| - 1;
      assert forall k :: from <= k < n ==> h[..n][k] == h[k];
      SuffixRunIsMaximal(h[..n], from);
    }
  }

  lemma {:induction false} LongestRunIsAttained(h: seq<Observation>)
    ensures exists from :: RunAt(h, from, LongestRun(h))
  {
    if h == [] {
      assert RunAt(h, 0, LongestRun(h));
    } else {
      var n := |h| - 1;
      LongestRunIsAttained(h[..n]);
      SuffixRunIsAttained(h);
      if LongestRun(h) == SuffixRun(h) {
        assert RunAt(h, |h| - SuffixRun(h), LongestRun(h));
      } else {
        var from :| RunAt(h[..n], from, LongestRun(h));
        assert forall k :: 0 <= k < n ==> h[..n][k] == h[k];
        assert RunAt(h, from, LongestRun(h));
      }
    }
  }

  lemma {:induction false} SuffixRunIsAttained(h: seq<Observation>)
    ensures SuffixRun(h) <= |h| && AllOutside(h, |h| - SuffixRun(h), |h|)
  {
    if h != [] {
      var n := |h| - 1;
      SuffixRunIsAttained(h[..n]);
      assert forall k :: 0 <= k < n ==> h[..n][k] == h[k];
    }
  }

  /** Finite and non-finite samples make up all samples; samples above and below make up those out of range. */
  lemma {:induction false} CountsAddUp(h: seq<Observation>)
    ensures Count(h, Any) == |h|
    ensures Count(h, Real) + Count(h, NotReal) == |h|
    ensures Count(h, Above) + Count(h, Below) == Count(h, Outside)
  {
    if h != [] {
      CountsAddUp(h[..|h| - 1]);
    }
  }

  // ---------------------------------------------------------------- extremes

  function Abs(x: real): real {
    if x < 0.0 then -x else x
  }

  datatype Side = Positive | Negative | Both

  predicate On(side: Side, s: Sample) {
    s.Finite? && (side.Positive? ==> s.value > 0.0) && (side.Negative? ==> s.value < 0.0)
  }

  /** `m` is the greatest value on a side, if the side has one. */
  ghost predicate IsMax(h: seq<Observation>, side: Side, m: Option<real>) {
    && (forall i :: 0 <= i < |h| && On(side, h[i].value) ==> m.Some? && h[i].value.value <= m.value)
    && (m.Some? ==> exists i :: 0 <= i < |h| && On(side, h[i].value) && h[i].value.value == m.value)
  }

  ghost predicate IsMin(h: seq<Observation>, side: Side, m: Option<real>) {
    && (forall i :: 0 <= i < |h| && On(side, h[i].value) ==> m.Some? && m.value <= h[i].value.value)
    && (m.Some? ==> exists i :: 0 <= i < |h| && On(side, h[i].value) && h[i].value.value == m.value)
  }

  /** `peak` is the greatest magnitude, and `at` the first observation that reached it. */
  ghost predicate IsPeak(h: seq<Observation>, peak: real, at: Option<Observation>) {
    && (forall i :: 0 <= i < |h| && h[i].value.Finite? ==> Abs(h[i].value.value) <= peak)
    && (at.None? ==> peak == 0.0)
    && (at.Some? ==> peak > 0.0 && exists i :: 0 <= i < |h| && PeakAt(h, i, peak) && h[i] == at.value)
  }

  ghost predicate PeakAt(h: seq<Observation>, i: nat, peak: real)
    requires i < |h|
  {
    && h[i].value.Finite? && Abs(h[i].value.value) == peak
    && forall j :: 0 <= j < i && h[j].value.Finite? ==> Abs(h[j].value.value) < peak
  }

  /** `at` is the first observation out of range. */
  ghost predicate IsFirst(h: seq<Observation>, at: Option<Observation>) {
    && (at.None? ==> forall i :: 0 <= i < |h| ==> !Is(Outside, h[i].value))
    && (at.Some? ==> exists i :: 0 <= i < |h| && FirstAt(h, i) && h[i] == at.value)
  }

  ghost predicate FirstAt(h: seq<Observation>, i: nat)
    requires i < |h|
  {
    Is(Outside, h[i].value) && forall j :: 0 <= j < i ==> !Is(Outside, h[j].value)
  }

  // ---------------------------------------------------------------- statistics kept of a history

  /** The counters and extremes that tracks and the whole programme share. */
  datatype Tally = Tally(
    total: nat, finite: nat, nonFinite: nat, outside: nat, above: nat, below: nat,
    maxPositive: Option<real>, minNegative: Option<real>, peakAbs: real, peak: Option<Observation>,
      first: Option<Observation>)

  const EMPTY := Tally(0, 0, 0, 0, 0, 0, None, None, 0.0, None, None)

  /** The tally is the true statistic of the history. */
  ghost predicate IsTally(h: seq<Observation>, t: Tally) {
    && t.total == Sat(Count(h, Any)) && t.finite == Sat(Count(h, Real)) && t.nonFinite == Sat(Count(h, NotReal))
    && t.outside == Sat(Count(h, Outside)) && t.above == Sat(Count(h, Above)) && t.below == Sat(Count(h, Below))
    && IsMax(h, Positive, t.maxPositive) && IsMin(h, Negative, t.minNegative)
    && IsPeak(h, t.peakAbs, t.peak) && IsFirst(h, t.first)
  }

  function Greater(m: Option<real>, v: real): Option<real> {
    if m.None? || m.value < v then Some(v) else m
  }

  function Less(m: Option<real>, v: real): Option<real> {
    if m.None? || v < m.value then Some(v) else m
  }

  lemma CountStep(h: seq<Observation>, o: Observation, c: Class)
    ensures Count(h + [o], c) == Count(h, c) + (if Is(c, o.value) then 1 else 0)
  {
    assert (h + [o])[..|h|] == h;
  }

  lemma MaxStep(h: seq<Observation>, o: Observation, side: Side, m: Option<real>)
    requires IsMax(h, side, m)
    ensures IsMax(h + [o], side, if On(side, o.value) then Greater(m, o.value.value) else m)
  {
    Extends(h, o);
  }

  lemma MinStep(h: seq<Observation>, o: Observation, side: Side, m: Option<real>)
    requires IsMin(h, side, m)
    ensures IsMin(h + [o], side, if On(side, o.value) then Less(m, o.value.value) else m)
  {
    Extends(h, o);
  }

  lemma Extends(h: seq<Observation>, o: Observation)
    ensures forall i :: 0 <= i < |h| ==> (h + [o])[i] == h[i]
    ensures (h + [o])[|h|] == o
  {
  }

  lemma PeakStep(h: seq<Observation>, o: Observation, peak: real, at: Option<Observation>)
    requires IsPeak(h, peak, at)
    ensures o.value.Finite? && Abs(o.value.value) > peak ==> IsPeak(h + [o], Abs(o.value.value), Some(o))
    ensures o.value.NonFinite? || Abs(o.value.value) <= peak ==> IsPeak(h + [o], peak, at)
  {
    Extends(h, o);
    if o.value.Finite? && Abs(o.value.value) > peak {
      assert peak >= 0.0;
      assert PeakAt(h + [o], |h|, Abs(o.value.value));
    } else if at.Some? {
      var i :| 0 <= i < |h| && PeakAt(h, i, peak) && h[i] == at.value;
      assert PeakAt(h + [o], i, peak);
    }
  }

  lemma FirstStep(h: seq<Observation>, o: Observation, at: Option<Observation>)
    requires IsFirst(h, at)
    ensures IsFirst(h + [o], if at.None? && Is(Outside, o.value) then Some(o) else at)
  {
    Extends(h, o);
    if at.Some? {
      var i :| 0 <= i < |h| && FirstAt(h, i) && h[i] == at.value;
      assert FirstAt(h + [o], i);
    } else if Is(Outside, o.value) {
      assert FirstAt(h + [o], |h|);
    }
  }

  /** Takes one observation into a tally. */
  method Record(ghost h: seq<Observation>, t: Tally, o: Observation) returns (r: Tally)
    requires IsTally(h, t)
    ensures IsTally(h + [o], r)
  {
    hide IsMax, IsMin, IsPeak, IsFirst, Count;
    CountStep(h, o, Any);
    CountStep(h, o, Real);
    CountStep(h, o, NotReal);
    CountStep(h, o, Outside);
    CountStep(h, o, Above);
    CountStep(h, o, Below);
    MaxStep(h, o, Positive, t.maxPositive);
    MinStep(h, o, Negative, t.minNegative);
    PeakStep(h, o, t.peakAbs, t.peak);
    FirstStep(h, o, t.first);
    r := t.(total := SaturatingAdd(t.total, 1));
    if o.value.NonFinite? {
      r := r.(nonFinite := SaturatingAdd(r.nonFinite, 1));
      return;
    }
    var value := o.value.value;
    r := r.(finite := SaturatingAdd(r.finite, 1));
    if value > 0.0 {
      r := r.(maxPositive := Greater(r.maxPositive, value));
    } else if value < 0.0 {
      r := r.(minNegative := Less(r.minNegative, value));
    }
    if Abs(value) > r.peakAbs {
      r := r.(peakAbs := Abs(value), peak := Some(o));
    }
    if Abs(value) > 1.0 {
      r := r.(outside := SaturatingAdd(r.outside, 1));
      if value > 1.0 {
        r := r.(above := SaturatingAdd(r.above, 1));
      } else {
        r := r.(below := SaturatingAdd(r.below, 1));
      }
      if r.first.None? {
        r := r.(first := Some(o));
      }
    }
  }

  lemma EmptyTally(h: seq<Observation>)
    requires h == []
    ensures IsTally(h, EMPTY)
  {
  }

  // ---------------------------------------------------------------- one track

  datatype TrackCensus = TrackCensus(tally: Tally, currentRun: nat, longestRun: nat, minValue: Option<real>,
      maxValue: Option<real>)

  const EMPTY_TRACK := TrackCensus(EMPTY, 0, 0, None, None)

  ghost predicate IsTrackCensus(h: seq<Observation>, t: TrackCensus) {
    && IsTally(h, t.tally)
    && t.currentRun == Sat(SuffixRun(h)) && t.longestRun == Sat(LongestRun(h))
    && IsMin(h, Both, t.minValue) && IsMax(h, Both, t.maxValue)
  }

  lemma RunStep(h: seq<Observation>, o: Observation)
    ensures SuffixRun(h + [o]) == if Is(Outside, o.value) then SuffixRun(h) + 1 else 0
    ensures LongestRun(h + [o]) == if LongestRun(h) < SuffixRun(h + [o]) then SuffixRun(h + [o]) else LongestRun(h)
  {
    assert (h + [o])[..|h|] == h;
  }

  /** `observe_track_values`. */
  method ObserveTrackValues(ghost h: seq<Observation>, track: TrackCensus, o: Observation) returns (t: TrackCensus)
    requires IsTrackCensus(h, track)
    ensures IsTrackCensus(h + [o], t)
  {
    hide IsTally, IsMax, IsMin, SuffixRun, LongestRun;
    RunStep(h, o);
    MinStep(h, o, Both, track.minValue);
    MaxStep(h, o, Both, track.maxValue);
    var tally := Record(h, track.tally, o);
    t := track.(tally := tally);
    if o.value.NonFinite? {
      t := t.(currentRun := 0);
      return;
    }
    var value := o.value.value;
    t := t.(minValue := Less(t.minValue, value), maxValue := Greater(t.maxValue, value));
    if Abs(value) > 1.0 {
      t := t.(currentRun := SaturatingAdd(t.currentRun, 1));
      t := t.(longestRun := if t.longestRun < t.currentRun then t.currentRun else t.longestRun);
    } else {
      t := t.(currentRun := 0);
    }
  }

  lemma EmptyTrack(h: seq<Observation>)
    requires h == []
    ensures IsTrackCensus(h, EMPTY_TRACK)
  {
    EmptyTally(h);
    NoRuns(h);
    hide IsTally, SuffixRun, LongestRun, EMPTY;
  }

  lemma NoRuns(h: seq<Observation>)
    requires h == []
    ensures SuffixRun(h) == 0 && LongestRun(h) == 0
  {
  }

  // ---------------------------------------------------------------- the whole programme

  /** The observations of one signal, in order. */
  function Select(h: seq<Observation>, s: Stream): seq<Observation> {
    if h == [] then []
    else Select(h[..|h| - 1], s) + (if h[|h| - 1].stream == s then [h[|h| - 1]] else [])
  }

  lemma SelectStep(h: seq<Observation>, o: Observation, s: Stream)
    ensures Select(h + [o], s) == if o.stream == s then Select(h, s) + [o] else Select(h, s)
  {
    assert (h + [o])[..|h|] == h;
  }

  /** The sum of a count over the LFE and the first `rows` rows. */
  function CountOver(h: seq<Observation>, c: Class, rows: nat): nat {
    if rows == 0 then Count(Select(h, BaseLfe), c) else CountOver(h, c, rows - 1) + Count(Select(h, Row(rows - 1)), c)
  }

  predicate InProgramme(s: Stream, rows: nat) {
    s.Row? ==> s.index < rows
  }

  /** Global counts are the sums over the tracks. */
  lemma {:induction false} CountIsSum(h: seq<Observation>, c: Class, rows: nat)
    requires forall i :: 0 <= i < |h| ==> InProgramme(h[i].stream, rows)
    ensures Count(h, c) == CountOver(h, c, rows)
  {
    hide *;
    if h == [] {
      NothingOver(h, c, rows);
      NoCount(h, c);
    } else {
      var n := |h| - 1;
      StreamsBelow(h, n, rows);
      CountIsSum(h[..n], c, rows);
      assert h[..n] + [h[n]] == h;
      CountOverStep(h[..n], h[n], c, rows);
      CountStep(h[..n], h[n], c);
    }
  }

  lemma StreamsBelow(h: seq<Observation>, n: nat, rows: nat)
    requires n <= |h| && forall i :: 0 <= i < |h| ==> InProgramme(h[i].stream, rows)
    ensures forall i :: 0 <= i < |h[..n]| ==> InProgramme(h[..n][i].stream, rows)
  {
    hide InProgramme;
  }

  lemma {:induction false} NothingOver(h: seq<Observation>, c: Class, rows: nat)
    requires h == []
    ensures CountOver(h, c, rows) == 0
  {
    if rows > 0 {
      NothingOver(h, c, rows - 1);
    }
  }

  lemma {:induction false} CountOverStep(h: seq<Observation>, o: Observation, c: Class, rows: nat)
    ensures CountOver(h + [o], c, rows) ==
      CountOver(h, c, rows) + (if InProgramme(o.stream, rows) && Is(c, o.value) then 1 else 0)
  {
    hide Select, Count;
    if rows == 0 {
      SelectStep(h, o, BaseLfe);
      CountStep(Select(h, BaseLfe), o, c);
    } else {
      CountOverStep(h, o, c, rows - 1);
      SelectStep(h, o, Row(rows - 1));
      CountStep(Select(h, Row(rows - 1)), o, c);
    }
  }

  /** `run` is the longest run of any single signal. */
  ghost predicate IsLongestOfAny(h: seq<Observation>, run: nat) {
    && (forall s: Stream :: Sat(LongestRun(Select(h, s))) <= run)
    && (run > 0 ==> exists s: Stream :: Sat(LongestRun(Select(h, s))) == run)
  }

  lemma LongestOfAnyStep(h: seq<Observation>, o: Observation, run: nat)
    requires IsLongestOfAny(h, run)
    ensures var now := Sat(LongestRun(Select(h + [o], o.stream)));
      IsLongestOfAny(h + [o], if run < now then now else run)
  {
    hide Select, LongestRun;
    var now := Sat(LongestRun(Select(h + [o], o.stream)));
    forall s: Stream
      ensures s != o.stream ==> Select(h + [o], s) == Select(h, s)
    {
      SelectStep(h, o, s);
    }
    SelectStep(h, o, o.stream);
    RunStep(Select(h, o.stream), o);
    assert Sat(LongestRun(Select(h, o.stream))) <= now;
    forall s: Stream
      ensures Sat(LongestRun(Select(h + [o], s))) <= if run < now then now else run
    {
      assert Sat(LongestRun(Select(h, s))) <= run;
    }
    if run < now {
      assert Sat(LongestRun(Select(h + [o], o.stream))) == now;
    } else if run > 0 {
      var s: Stream :| Sat(LongestRun(Select(h, s))) == run;
      assert Sat(LongestRun(Select(h + [o], s))) == run;
    }
  }

  /** A sample in range leaves every longest run as it was. */
  lemma LongestOfAnyKept(h: seq<Observation>, o: Observation, run: nat)
    requires IsLongestOfAny(h, run) && !Is(Outside, o.value)
    ensures IsLongestOfAny(h + [o], run)
  {
    hide Select, LongestRun;
    SelectStep(h, o, o.stream);
    RunStep(Select(h, o.stream), o);
    LongestOfAnyStep(h, o, run);
    assert Sat(LongestRun(Select(h, o.stream))) <= run;
  }

  class PcmHeadroomCensus {
    var tally: Tally
    var longestRun: nat
    var baseLfe: Option<TrackCensus>
    var reconstruction: seq<TrackCensus>
    ghost var history: seq<Observation>

    ghost predicate Valid()
      reads this
    {
      IsCensus(history, tally, longestRun, baseLfe, reconstruction)
    }

    constructor (reconstructionCount: nat, baseLfePresent: bool)
      ensures Valid() && history == []
      ensures |reconstruction| == reconstructionCount && baseLfe.Some? == baseLfePresent
    {
      hide EMPTY, EMPTY_TRACK, Select, IsTally, IsTrackCensus, IsLongestOfAny;
      tally, longestRun := EMPTY, 0;
      baseLfe := if baseLfePresent then Some(EMPTY_TRACK) else None;
      reconstruction := seq(reconstructionCount, _ => EMPTY_TRACK);
      history := [];
      new;
      hide IsCensus;
      EmptyCensus(history, baseLfe, reconstruction);
    }

    /** Observes an LFE sample; without an LFE track nothing changes. */
    method ObserveBaseLfe(sample: nat, value: Sample)
      requires Valid()
      modifies this
      ensures Valid() && |reconstruction| == old(|reconstruction|) && baseLfe.Some? == old(baseLfe.Some?)
      ensures history == old(history) + if baseLfe.Some? then [Observation(BaseLfe, sample, value)] else []
    {
      hide IsMin, IsMax, SuffixRun, LongestRun, Select, IsTally, IsLongestOfAny;
      if baseLfe.Some? {
        var o := Observation(BaseLfe, sample, value);
        TracksStep(history, o, baseLfe, reconstruction);
        var track := ObserveTrackValues(Select(history, BaseLfe), baseLfe.value, o);
        baseLfe := Some(track);
        ObserveGlobal(o, track.longestRun);
      }
    }

    /** Observes a sample of one row; a row that does not exist changes nothing. */
    method ObserveReconstruction(rowIndex: nat, sample: nat, value: Sample)
      requires Valid()
      modifies this
      ensures Valid() && |reconstruction| == old(|reconstruction|) && baseLfe.Some? == old(baseLfe.Some?)
      ensures history == old(history) + if rowIndex < |reconstruction| then [Observation(Row(rowIndex), sample, value)]
        else []
    {
      hide IsMin, IsMax, SuffixRun, LongestRun, Select, IsTally, IsLongestOfAny;
      if rowIndex < |reconstruction| {
        var o := Observation(Row(rowIndex), sample, value);
        TracksStep(history, o, baseLfe, reconstruction);
        var track := ObserveTrackValues(Select(history, Row(rowIndex)), reconstruction[rowIndex], o);
        reconstruction := reconstruction[rowIndex := track];
        ObserveGlobal(o, track.longestRun);
      }
    }

    /** `observe_global`: the programme's statistics take the observation its track has just taken. */
    method ObserveGlobal(o: Observation, trackLongestRun: nat)
      requires IsTally(history, tally) && IsLongestOfAny(history, longestRun)
      requires trackLongestRun == Sat(LongestRun(Select(history + [o], o.stream)))
      modifies this`tally, this`longestRun, this`history
      ensures history == old(history) + [o]
      ensures IsTally(history, tally) && IsLongestOfAny(history, longestRun)
    {
      hide IsTally, IsLongestOfAny, LongestRun, Select;
      tally := Record(history, tally, o);
      LongestOfAnyStep(history, o, longestRun);
      if Is(Outside, o.value) {
        longestRun := if longestRun < trackLongestRun then trackLongestRun else longestRun;
      } else {
        LongestOfAnyKept(history, o, longestRun);
      }
      history := history + [o];
    }
  }

  /** Every statistic of a census is the true statistic of the history it observed. */
  ghost predicate IsCensus(h: seq<Observation>, tally: Tally, longestRun: nat, baseLfe: Option<TrackCensus>,
      reconstruction: seq<TrackCensus>) {
    && (forall i :: 0 <= i < |h| ==>
      InProgramme(h[i].stream, |reconstruction|) && (h[i].stream.BaseLfe? ==> baseLfe.Some?))
    && (baseLfe.Some? ==> IsTrackCensus(Select(h, BaseLfe), baseLfe.value))
    && (forall r :: 0 <= r < |reconstruction| ==> IsTrackCensus(Select(h, Row(r)), reconstruction[r]))
    && IsTally(h, tally) && IsLongestOfAny(h, longestRun)
  }

  lemma EmptyCensus(h: seq<Observation>, baseLfe: Option<TrackCensus>, reconstruction: seq<TrackCensus>)
    requires h == []
    requires baseLfe.Some? ==> baseLfe.value == EMPTY_TRACK
    requires forall r :: 0 <= r < |reconstruction| ==> reconstruction[r] == EMPTY_TRACK
    ensures IsCensus(h, EMPTY, 0, baseLfe, reconstruction)
  {
    EmptyTally(h);
    forall s: Stream
      ensures Select(h, s) == []
    {
    }
    hide IsTally, IsTrackCensus, EMPTY, EMPTY_TRACK, Select;
    forall s: Stream
      ensures IsTrackCensus(Select(h, s), EMPTY_TRACK) && Sat(LongestRun(Select(h, s))) == 0
    {
      EmptyTrack(Select(h, s));
      NoRuns(Select(h, s));
    }
    assert baseLfe.Some? ==> IsTrackCensus(Select(h, BaseLfe), EMPTY_TRACK);
  }

  /** An observation changes only its own track's history. */
  lemma TracksStep(h: seq<Observation>, o: Observation, baseLfe: Option<TrackCensus>, reconstruction: seq<TrackCensus>)
    ensures o.stream.Row? ==> Select(h + [o], BaseLfe) == Select(h, BaseLfe)
    ensures forall r :: 0 <= r < |reconstruction| && o.stream != Row(r) ==> Select(h + [o], Row(r)) == Select(h, Row(r))
    ensures Select(h + [o], o.stream) == Select(h, o.stream) + [o]
  {
    hide Select;
    SelectStep(h, o, BaseLfe);
    SelectStep(h, o, o.stream);
    forall r | 0 <= r < |reconstruction|
      ensures o.stream != Row(r) ==> Select(h + [o], Row(r)) == Select(h, Row(r))
    {
      SelectStep(h, o, Row(r));
    }
  }

  function CounterOf(t: Tally, c: Class): nat {
    match c
    case Any => t.total
    case Real => t.finite
    case NotReal => t.nonFinite
    case Outside => t.outside
    case Above => t.above
    case Below => t.below
  }

  function RowSum(reconstruction: seq<TrackCensus>, c: Class): nat {
    if reconstruction == [] then 0
    else RowSum(reconstruction[..|reconstruction| - 1], c) + CounterOf(reconstruction[|reconstruction| - 1].tally, c)
  }

  /** A counter summed over the tracks. */
  function SumOver(baseLfe: Option<TrackCensus>, reconstruction: seq<TrackCensus>, c: Class): nat {
    RowSum(reconstruction, c) + if baseLfe.Some? then CounterOf(baseLfe.value.tally, c) else 0
  }

  lemma {:induction false} SelectedAreFewer(h: seq<Observation>, s: Stream, c: Class)
    ensures Count(Select(h, s), c) <= Count(h, c) <= |h|
    ensures (forall i :: 0 <= i < |h| ==> h[i].stream != s) ==> Select(h, s) == []
  {
    if h == [] {
      NoCount(h, c);
    } else {
      var n := |h| - 1;
      SelectedAreFewer(h[..n], s, c);
      CountStep(Select(h[..n], s), h[n], c);
      hide Count;
      CountStep(h[..n], h[n], c);
      assert h == h[..n] + [h[n]];
      SelectStep(h[..n], h[n], s);
      hide Select;
      assert forall i :: 0 <= i < n ==> h[..n][i] == h[i];
    }
  }

  lemma NoCount(h: seq<Observation>, c: Class)
    requires h == []
    ensures Count(h, c) == 0
  {
  }

  lemma TrackCounter(h: seq<Observation>, s: Stream, t: TrackCensus, c: Class)
    requires IsTrackCensus(Select(h, s), t) && |h| < MAX
    ensures CounterOf(t.tally, c) == Count(Select(h, s), c)
  {
    SelectedAreFewer(h, s, c);
    hide IsMax, IsMin, IsPeak, IsFirst, Select, Count;
  }

  lemma {:induction false} RowSumIsCount(h: seq<Observation>, reconstruction: seq<TrackCensus>, c: Class)
    requires |h| < MAX && forall r :: 0 <= r < |reconstruction| ==> IsTrackCensus(Select(h, Row(r)), reconstruction[r])
    ensures CountOver(h, c, |reconstruction|) == RowSum(reconstruction, c) + Count(Select(h, BaseLfe), c)
  {
    hide IsTrackCensus, Select, Count, CounterOf;
    if reconstruction != [] {
      var n := |reconstruction| - 1;
      RowSumIsCount(h, reconstruction[..n], c);
      TrackCounter(h, Row(n), reconstruction[n], c);
    }
  }

  // ---------------------------------------------------------------- extremes over tracks

  /** `t` is the tally of one of the tracks. */
  ghost predicate IsTrackTally(baseLfe: Option<TrackCensus>, reconstruction: seq<TrackCensus>, t: Tally) {
    (baseLfe.Some? && t == baseLfe.value.tally) || exists r :: 0 <= r < |reconstruction| && t == reconstruction[r].tally
  }

  /** The programme's extremes are those of its tracks: none is exceeded, and one is attained. */
  ghost predicate ExtremesOver(baseLfe: Option<TrackCensus>, reconstruction: seq<TrackCensus>, tally: Tally) {
    && (forall t :: IsTrackTally(baseLfe, reconstruction, t) ==> WithinExtremes(t, tally))
    && (tally.maxPositive.Some? ==>
          exists t :: IsTrackTally(baseLfe, reconstruction, t) && t.maxPositive == tally.maxPositive)
    && (tally.minNegative.Some? ==>
          exists t :: IsTrackTally(baseLfe, reconstruction, t) && t.minNegative == tally.minNegative)
    && (tally.peak.Some? ==>
          exists t :: IsTrackTally(baseLfe, reconstruction, t) && t.peak.Some? && t.peakAbs == tally.peakAbs)
  }

  predicate WithinExtremes(t: Tally, tally: Tally) {
    && (t.maxPositive.Some? ==> tally.maxPositive.Some? && t.maxPositive.value <= tally.maxPositive.value)
    && (t.minNegative.Some? ==> tally.minNegative.Some? && tally.minNegative.value <= t.minNegative.value)
    && t.peakAbs <= tally.peakAbs
  }

  lemma {:induction false} SelectHolds(h: seq<Observation>, s: Stream)
    ensures forall o :: o in Select(h, s) <==> o in h && o.stream == s
  {
    if h != [] {
      var n := |h| - 1;
      SelectHolds(h[..n], s);
      assert h == h[..n] + [h[n]];
    }
  }

  /** What the extremes of a tally say about any observation. */
  lemma TallyBounds(h: seq<Observation>, t: Tally, o: Observation)
    requires IsTally(h, t) && o in h && o.value.Finite?
    ensures Abs(o.value.value) <= t.peakAbs
    ensures o.value.value > 0.0 ==> t.maxPositive.Some? && o.value.value <= t.maxPositive.value
    ensures o.value.value < 0.0 ==> t.minNegative.Some? && t.minNegative.value <= o.value.value
  {
    hide Count, IsFirst;
    var i :| 0 <= i < |h| && h[i] == o;
    assert o.value.value > 0.0 ==> On(Positive, h[i].value);
    assert o.value.value < 0.0 ==> On(Negative, h[i].value);
  }

  lemma MaxIsAttained(h: seq<Observation>, t: Tally) returns (o: Observation)
    requires IsTally(h, t) && t.maxPositive.Some?
    ensures o in h && o.value == Finite(t.maxPositive.value) && o.value.value > 0.0
  {
    hide Count, IsFirst, IsMin, IsPeak;
    var i :| 0 <= i < |h| && On(Positive, h[i].value) && h[i].value.value == t.maxPositive.value;
    o := h[i];
  }

  lemma MinIsAttained(h: seq<Observation>, t: Tally) returns (o: Observation)
    requires IsTally(h, t) && t.minNegative.Some?
    ensures o in h && o.value == Finite(t.minNegative.value) && o.value.value < 0.0
  {
    hide Count, IsFirst, IsMax, IsPeak;
    var i :| 0 <= i < |h| && On(Negative, h[i].value) && h[i].value.value == t.minNegative.value;
    o := h[i];
  }

  lemma PeakIsAttained(h: seq<Observation>, t: Tally) returns (o: Observation)
    requires IsTally(h, t) && t.peak.Some?
    ensures o in h && o.value.Finite? && Abs(o.value.value) == t.peakAbs > 0.0
  {
    hide Count, IsFirst, IsMax, IsMin;
    var i :| 0 <= i < |h| && PeakAt(h, i, t.peakAbs) && h[i] == t.peak.value;
    o := h[i];
  }

  lemma NoPeak(h: seq<Observation>, t: Tally)
    requires IsTally(h, t)
    ensures t.peak.None? ==> t.peakAbs == 0.0
    ensures t.peakAbs >= 0.0
  {
    hide Count, IsFirst, IsMax, IsMin;
  }

  /** A part of the history has no greater extremes than the whole. */
  lemma PartIsWithin(h: seq<Observation>, tally: Tally, part: seq<Observation>, t: Tally)
    requires IsTally(h, tally) && IsTally(part, t) && forall o :: o in part ==> o in h
    ensures WithinExtremes(t, tally)
  {
    hide IsTally;
    NoPeak(h, tally);
    NoPeak(part, t);
    if t.maxPositive.Some? {
      var o := MaxIsAttained(part, t);
      TallyBounds(h, tally, o);
    }
    if t.minNegative.Some? {
      var o := MinIsAttained(part, t);
      TallyBounds(h, tally, o);
    }
    if t.peak.Some? {
      var o := PeakIsAttained(part, t);
      TallyBounds(h, tally, o);
    }
  }

  /** The tally of the track an observation belongs to. */
  lemma TrackOf(h: seq<Observation>, tally: Tally, longestRun: nat, baseLfe: Option<TrackCensus>,
                reconstruction: seq<TrackCensus>, o: Observation) returns (t: Tally)
    requires IsCensus(h, tally, longestRun, baseLfe, reconstruction) && o in h
    ensures IsTrackTally(baseLfe, reconstruction, t) && WithinExtremes(t, tally)
    ensures IsTally(Select(h, o.stream), t) && o in Select(h, o.stream)
  {
    hide Select, IsTally, IsLongestOfAny, LongestRun, SuffixRun, IsMax, IsMin, WithinExtremes;
    SelectHolds(h, o.stream);
    var i :| 0 <= i < |h| && h[i] == o;
    assert InProgramme(h[i].stream, |reconstruction|);
    t := if o.stream.Row? then reconstruction[o.stream.index].tally else baseLfe.value.tally;
    PartIsWithin(h, tally, Select(h, o.stream), t);
  }

  lemma EveryTrackIsWithin(h: seq<Observation>, tally: Tally, longestRun: nat, baseLfe: Option<TrackCensus>,
                           reconstruction: seq<TrackCensus>, t: Tally)
    requires IsCensus(h, tally, longestRun, baseLfe, reconstruction) && IsTrackTally(baseLfe, reconstruction, t)
    ensures WithinExtremes(t, tally)
  {
    hide Select, IsTally, IsLongestOfAny, LongestRun, SuffixRun, IsMax, IsMin, WithinExtremes;
    if baseLfe.Some? && t == baseLfe.value.tally {
      SelectHolds(h, BaseLfe);
      PartIsWithin(h, tally, Select(h, BaseLfe), t);
    } else {
      var r :| 0 <= r < |reconstruction| && t == reconstruction[r].tally;
      SelectHolds(h, Row(r));
      PartIsWithin(h, tally, Select(h, Row(r)), t);
    }
  }

  lemma CensusTally(h: seq<Observation>, tally: Tally, longestRun: nat, baseLfe: Option<TrackCensus>,
                    reconstruction: seq<TrackCensus>)
    requires IsCensus(h, tally, longestRun, baseLfe, reconstruction)
    ensures IsTally(h, tally)
  {
    hide IsTally, IsTrackCensus, IsLongestOfAny, Select;
  }

  /** The programme's greatest, least and peak sample are the extremes of its tracks. */
  lemma ExtremesAreOverTracks(h: seq<Observation>, tally: Tally, longestRun: nat, baseLfe: Option<TrackCensus>,
                              reconstruction: seq<TrackCensus>)
    requires IsCensus(h, tally, longestRun, baseLfe, reconstruction)
    ensures ExtremesOver(baseLfe, reconstruction, tally)
  {
    hide IsCensus, IsTally, IsTrackTally, Select;
    CensusTally(h, tally, longestRun, baseLfe, reconstruction);
    forall t | IsTrackTally(baseLfe, reconstruction, t)
      ensures WithinExtremes(t, tally)
    {
      EveryTrackIsWithin(h, tally, longestRun, baseLfe, reconstruction, t);
    }
    if tally.maxPositive.Some? {
      var o := MaxIsAttained(h, tally);
      var t := TrackOf(h, tally, longestRun, baseLfe, reconstruction, o);
      TallyBounds(Select(h, o.stream), t, o);
    }
    if tally.minNegative.Some? {
      var o := MinIsAttained(h, tally);
      var t := TrackOf(h, tally, longestRun, baseLfe, reconstruction, o);
      TallyBounds(Select(h, o.stream), t, o);
    }
    if tally.peak.Some? {
      var o := PeakIsAttained(h, tally);
      var t := TrackOf(h, tally, longestRun, baseLfe, reconstruction, o);
      TallyBounds(Select(h, o.stream), t, o);
      NoPeak(Select(h, o.stream), t);
    }
  }

  /** Below saturation every counter of the programme is the sum of its tracks' counters, finite and non-finite
      samples make up the total, and the longest run is the longest of any track. */
  lemma CensusAddsUp(h: seq<Observation>, tally: Tally, longestRun: nat, baseLfe: Option<TrackCensus>,
      reconstruction: seq<TrackCensus>)
    requires IsCensus(h, tally, longestRun, baseLfe, reconstruction) && |h| < MAX
    ensures tally.total == |h| == tally.finite + tally.nonFinite
    ensures tally.outside == tally.above + tally.below
    ensures forall c: Class :: CounterOf(tally, c) == SumOver(baseLfe, reconstruction, c)
    ensures ExtremesOver(baseLfe, reconstruction, tally)
    ensures forall r :: 0 <= r < |reconstruction| ==> reconstruction[r].longestRun <= longestRun
    ensures baseLfe.Some? ==> baseLfe.value.longestRun <= longestRun
    ensures longestRun > 0 ==>
      || (baseLfe.Some? && baseLfe.value.longestRun == longestRun)
      || exists r :: 0 <= r < |reconstruction| && reconstruction[r].longestRun == longestRun
  {
    LongestHasATrack(h, tally, longestRun, baseLfe, reconstruction);
    ExtremesAreOverTracks(h, tally, longestRun, baseLfe, reconstruction);
    CensusTally(h, tally, longestRun, baseLfe, reconstruction);
    TallyCounts(h, tally);
    hide *;
    forall c: Class
      ensures CounterOf(tally, c) == SumOver(baseLfe, reconstruction, c)
    {
      CounterIsSum(h, tally, longestRun, baseLfe, reconstruction, c);
    }
    forall r | 0 <= r < |reconstruction|
      ensures reconstruction[r].longestRun <= longestRun
    {
      RunsAreBelow(h, tally, longestRun, baseLfe, reconstruction, Row(r));
    }
    if baseLfe.Some? {
      RunsAreBelow(h, tally, longestRun, baseLfe, reconstruction, BaseLfe);
    }
  }

  lemma TallyCounts(h: seq<Observation>, t: Tally)
    requires IsTally(h, t) && |h| < MAX
    ensures forall c: Class :: CounterOf(t, c) == Count(h, c)
    ensures t.total == |h| == t.finite + t.nonFinite && t.outside == t.above + t.below
  {
    hide IsMax, IsMin, IsPeak, IsFirst, Count;
    CountsAddUp(h);
    forall c: Class
      ensures CounterOf(t, c) == Count(h, c)
    {
      SelectedAreFewer(h, BaseLfe, c);
    }
    assert CounterOf(t, Any) == Count(h, Any) && CounterOf(t, Real) == Count(h, Real) &&
      CounterOf(t, NotReal) == Count(h, NotReal);
    assert CounterOf(t, Outside) == Count(h, Outside) && CounterOf(t, Above) == Count(h, Above) &&
      CounterOf(t, Below) == Count(h, Below);
  }

  lemma CounterIsSum(h: seq<Observation>, tally: Tally, longestRun: nat, baseLfe: Option<TrackCensus>,
                     reconstruction: seq<TrackCensus>, c: Class)
    requires IsCensus(h, tally, longestRun, baseLfe, reconstruction) && |h| < MAX
    ensures CounterOf(tally, c) == SumOver(baseLfe, reconstruction, c)
  {
    hide IsTrackCensus, Select, IsTally, IsLongestOfAny, CounterOf, Count;
    TallyCounts(h, tally);
    CountIsSum(h, c, |reconstruction|);
    RowSumIsCount(h, reconstruction, c);
    SelectedAreFewer(h, BaseLfe, c);
    if baseLfe.Some? {
      TrackCounter(h, BaseLfe, baseLfe.value, c);
    } else {
      NothingSelected(h, c);
    }
  }

  lemma NothingSelected(h: seq<Observation>, c: Class)
    requires forall i :: 0 <= i < |h| ==> h[i].stream != BaseLfe
    ensures Count(Select(h, BaseLfe), c) == 0
  {
    SelectedAreFewer(h, BaseLfe, c);
    hide Select;
    NoCount(Select(h, BaseLfe), c);
  }

  lemma RunsAreBelow(h: seq<Observation>, tally: Tally, longestRun: nat, baseLfe: Option<TrackCensus>,
                     reconstruction: seq<TrackCensus>, s: Stream)
    requires IsCensus(h, tally, longestRun, baseLfe, reconstruction)
    requires if s.Row? then s.index < |reconstruction| else baseLfe.Some?
    ensures (if s.Row? then reconstruction[s.index] else baseLfe.value).longestRun <= longestRun
  {
    hide IsTrackCensus, IsTally, IsLongestOfAny, Select;
    TrackRunIsBelow(h, s, if s.Row? then reconstruction[s.index] else baseLfe.value, longestRun);
  }

  lemma LongestHasATrack(h: seq<Observation>, tally: Tally, longestRun: nat, baseLfe: Option<TrackCensus>,
      reconstruction: seq<TrackCensus>)
    requires IsCensus(h, tally, longestRun, baseLfe, reconstruction)
    ensures longestRun > 0 ==>
      || (baseLfe.Some? && baseLfe.value.longestRun == longestRun)
      || exists r :: 0 <= r < |reconstruction| && reconstruction[r].longestRun == longestRun
  {
    hide IsTally, IsMin, IsMax, Select, LongestRun, SuffixRun;
    if longestRun > 0 {
      var s: Stream :| Sat(LongestRun(Select(h, s))) == longestRun;
      SelectedAreFewer(h, s, Any);
      NoRuns([]);
      if s.Row? {
        assert reconstruction[s.index].longestRun == longestRun;
      }
    }
  }

  lemma TrackRunIsBelow(h: seq<Observation>, s: Stream, t: TrackCensus, run: nat)
    requires IsTrackCensus(Select(h, s), t) && IsLongestOfAny(h, run)
    ensures t.longestRun <= run
  {
    hide IsTally, Select, LongestRun, IsMax, IsMin;
  }
}
