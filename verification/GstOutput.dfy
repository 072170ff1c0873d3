/** Output accounting of the GStreamer decoder: renderer frames of any length against a queue of
    compressed access units. */
module GstOutput {
  import opened Wrappers
  import opened Bytes

  // ---------------------------------------------------------------- the trace of a session

  /** What has happened since the last reset: a unit was admitted with its duration, samples were sent on
      behalf of the oldest unit, that unit was retired, or samples were sent with no unit left. */
  datatype Event<T> = Admit(samples: nat) | Sub(pcm: seq<T>) | Retire | Tail(pcm: seq<T>)

  /** The queue a trace leaves behind, if every step of the trace is legal: samples go to the oldest unit
      and never exceed it, only a unit whose samples are all out retires, and tails need an empty queue. */
  function Replay<T>(trace: seq<Event<T>>): Option<seq<nat>> {
    if trace == [] then Some([])
    else
      var before := Replay(trace[..|trace| - 1]);
      if before.None? then None else Step(before.value, trace[|trace| - 1])
  }

  function Step<T>(queue: seq<nat>, e: Event<T>): Option<seq<nat>> {
    match e
    case Admit(n) => Some(queue + [n])
    case Sub(pcm) => if queue != [] && |pcm| <= queue[0] then Some([queue[0] - |pcm|] + queue[1..]) else None
    case Retire => if queue != [] && queue[0] == 0 then Some(queue[1..]) else None
    case Tail(_) => if queue == [] then Some([]) else None
  }

  lemma ReplayStep<T>(trace: seq<Event<T>>, e: Event<T>)
    ensures Replay(trace + [e]) == if Replay(trace).None? then None else Step(Replay(trace).value, e)
  {
    assert (trace + [e])[..|trace|] == trace;
  }

  function Retires<T>(trace: seq<Event<T>>): nat {
    if trace == [] then 0 else Retires(trace[..|trace| - 1]) + if trace[|trace| - 1].Retire? then 1 else 0
  }

  /** Durations of the admitted units, in order. */
  function Admits<T>(trace: seq<Event<T>>): seq<nat> {
    if trace == [] then []
    else Admits(trace[..|trace| - 1]) + if trace[|trace| - 1].Admit? then [trace[|trace| - 1].samples] else []
  }

  /** Samples sent on behalf of unit `k`: while exactly `k` units had retired. */
  function SentFor<T>(trace: seq<Event<T>>, k: nat): nat {
    if trace == [] then 0
    else
      var n := |trace| - 1;
      SentFor(trace[..n], k) + if trace[n].Sub? && Retires(trace[..n]) == k then |trace[n].pcm| else 0
  }

  /** All samples sent on behalf of units. */
  function Sent<T>(trace: seq<Event<T>>): nat {
    if trace == [] then 0 else Sent(trace[..|trace| - 1]) + if trace[|trace| - 1].Sub? then |trace[|trace| - 1].pcm|
      else 0
  }

  function Sum(q: seq<nat>): nat {
    if q == [] then 0 else Sum(q[..|q| - 1]) + q[|q| - 1]
  }

  lemma {:induction false} SumParts(a: seq<nat>, b: seq<nat>)
    ensures Sum(a + b) == Sum(a) + Sum(b)
  {
    if b == [] {
      assert a + b == a;
    } else {
      var n := |b| - 1;
      assert (a + b)[..|a + b| - 1] == a + b[..n];
      SumParts(a, b[..n]);
    }
  }

  lemma SumHead(q: seq<nat>)
    requires q != []
    ensures Sum(q) == q[0] + Sum(q[1..])
  {
    SumParts([q[0]], q[1..]);
    assert q == [q[0]] + q[1..];
    assert Sum([q[0]]) == q[0];
  }

  /** Conservation: over every legal run, the samples admitted are the samples sent as subframes plus the
      samples still pending. */
  lemma {:induction false} Conservation<T>(trace: seq<Event<T>>)
    requires Replay(trace).Some?
    ensures Sum(Admits(trace)) == Sent(trace) + Sum(Replay(trace).value)
  {
    if trace == [] {
    } else {
      var n := |trace| - 1;
      Conservation(trace[..n]);
      var before, after, e := Replay(trace[..n]).value, Replay(trace).value, trace[n];
      match e
      case Admit(samples) =>
        SumParts(Admits(trace[..n]), [samples]);
        SumParts(before, [samples]);
        assert Sum([samples]) == samples;
      case Sub(pcm) =>
        assert Admits(trace) == Admits(trace[..n]);
        SumHead(before);
        SumHead(after);
        assert after[1..] == before[1..];
      case Retire =>
        assert Admits(trace) == Admits(trace[..n]);
        SumHead(before);
      case Tail(_) =>
        assert Admits(trace) == Admits(trace[..n]);
    }
  }

  /** Units retire in the order they were admitted, each exactly when its own samples are out. */
  lemma {:induction false} UnitsRetireInOrder<T>(trace: seq<Event<T>>)
    requires Replay(trace).Some?
    ensures var queue, admits, retired := Replay(trace).value, Admits(trace), Retires(trace);
      && |admits| == retired + |queue|
      && (forall k :: 0 <= k < retired ==> SentFor(trace, k) == admits[k])
      && (queue != [] ==> SentFor(trace, retired) + queue[0] == admits[retired])
      && (forall i :: 1 <= i < |queue| ==> queue[i] == admits[retired + i])
      && (queue == [] ==> SentFor(trace, retired) == 0)
      && (forall k :: k > retired ==> SentFor(trace, k) == 0)
  {
    if trace != [] {
      var n := |trace| - 1;
      UnitsRetireInOrder(trace[..n]);
      var before, e := Replay(trace[..n]).value, trace[n];
      assert forall k ::
        SentFor(trace, k) == SentFor(trace[..n], k) + (if e.Sub? && Retires(trace[..n]) == k then |e.pcm| else 0);
    }
  }

  /** Tail output happens only when every admitted unit has retired. */
  lemma TailsNeedAnEmptyQueue<T>(trace: seq<Event<T>>, i: nat)
    requires Replay(trace).Some? && i < |trace| && trace[i].Tail?
    ensures Retires(trace[..i]) == |Admits(trace[..i])|
  {
    ReplayPrefix(trace, i + 1);
    assert trace[..i + 1][..i] == trace[..i];
    UnitsRetireInOrder(trace[..i]);
  }

  lemma {:induction false} ReplayPrefix<T>(trace: seq<Event<T>>, k: nat)
    requires Replay(trace).Some? && k <= |trace|
    ensures Replay(trace[..k]).Some?
  {
    if k == |trace| {
      assert trace[..k] == trace;
    } else {
      var n := |trace| - 1;
      ReplayPrefix(trace[..n], k);
      assert trace[..n][..k] == trace[..k];
    }
  }

  // ---------------------------------------------------------------- who owns which sample

  /** A sample with the unit it was sent for; none for tail output. */
  datatype Owned<T> = Owned(sample: T, unit: Option<nat>)

  function Label<T>(pcm: seq<T>, unit: Option<nat>): (labelled: seq<Owned<T>>)
    ensures |labelled| == |pcm|
  {
    seq(|pcm|, i requires 0 <= i < |pcm| => Owned(pcm[i], unit))
  }

  /** All samples of a trace in output order, each with its owner. */
  function Output<T>(trace: seq<Event<T>>): seq<Owned<T>> {
    if trace == [] then []
    else
      var n := |trace| - 1;
      Output(trace[..n]) +
      match trace[n]
      case Sub(pcm) => Label(pcm, Some(Retires(trace[..n])))
      case Tail(pcm) => Label(pcm, None)
      case _ => []
  }

  lemma OutputStep<T>(trace: seq<Event<T>>, e: Event<T>)
    ensures Output(trace + [e]) == Output(trace) +
      match e
      case Sub(pcm) => Label(pcm, Some(Retires(trace)))
      case Tail(pcm) => Label(pcm, None)
      case _ => []
    ensures Retires(trace + [e]) == Retires(trace) + if e.Retire? then 1 else 0
  {
    assert (trace + [e])[..|trace|] == trace;
  }

  /** The owners of `pcm` when the queue is `queue` and `retired` units are gone: each unit takes its own
      number of samples, the rest is tail. */
  function Assign<T>(queue: seq<nat>, retired: nat, pcm: seq<T>): seq<Owned<T>>
    decreases |queue|
  {
    if pcm == [] then []
    else if queue == [] then Label(pcm, None)
    else if queue[0] <= |pcm|
      then Label(pcm[..queue[0]], Some(retired)) + Assign(queue[1..], retired + 1, pcm[queue[0]..])
    else Label(pcm, Some(retired))
  }

  /** The queue after `n` more samples. */
  function Consume(queue: seq<nat>, n: nat): seq<nat>
    decreases |queue|
  {
    if n == 0 || queue == [] then queue
    else if queue[0] <= n then Consume(queue[1..], n - queue[0])
    else [queue[0] - n] + queue[1..]
  }

  lemma LabelParts<T>(a: seq<T>, b: seq<T>, unit: Option<nat>)
    ensures Label(a + b, unit) == Label(a, unit) + Label(b, unit)
  {
  }

  /** Sending the oldest unit's last samples. */
  lemma AssignRetire<T>(queue: seq<nat>, retired: nat, chunk: seq<T>, rest: seq<T>)
    requires queue != [] && |chunk| == queue[0] && chunk + rest != []
    ensures Assign(queue, retired, chunk + rest) == Label(chunk, Some(retired)) + Assign(queue[1..], retired + 1, rest)
    ensures Consume(queue, |chunk + rest|) == Consume(queue[1..], |rest|)
  {
    assert (chunk + rest)[..|chunk|] == chunk && (chunk + rest)[|chunk|..] == rest;
  }

  /** Sending some but not all of the oldest unit's samples. */
  lemma AssignPart<T>(queue: seq<nat>, retired: nat, chunk: seq<T>, rest: seq<T>)
    requires queue != [] && 0 < |chunk| < queue[0]
    ensures var left := [queue[0] - |chunk|] + queue[1..];
      && Assign(queue, retired, chunk + rest) == Label(chunk, Some(retired)) + Assign(left, retired, rest)
      && Consume(queue, |chunk + rest|) == Consume(left, |rest|)
  {
    var left, pcm := [queue[0] - |chunk|] + queue[1..], chunk + rest;
    assert left[1..] == queue[1..];
    if queue[0] <= |pcm| {
      var mine := rest[..left[0]];
      assert pcm[..queue[0]] == chunk + mine && pcm[queue[0]..] == rest[left[0]..];
      LabelParts(chunk, mine, Some(retired));
    } else {
      LabelParts(chunk, rest, Some(retired));
    }
  }

  lemma AssignTail<T>(retired: nat, chunk: seq<T>, rest: seq<T>)
    ensures Assign([], retired, chunk + rest) == Label(chunk, None) + Assign([], retired, rest)
    ensures Consume([], |chunk + rest|) == [] == Consume([], |rest|)
  {
    LabelParts(chunk, rest, None);
    assert chunk + rest == [] ==> chunk == [] && rest == [];
  }

  const I32_LIMIT: nat := 0x8000_0000

  lemma NoFrames<T>(queue: seq<nat>, retired: nat, frames: seq<seq<T>>)
    requires frames == []
    ensures Flatten(frames) == [] && Assign(queue, retired, Flatten(frames)) == [] &&
      Consume(queue, |Flatten(frames)|) == queue
  {
  }

  // ---------------------------------------------------------------- the decoder element

  /** What the rendering session answers to a packet. */
  datatype PacketResult<T> = Rejected | OutputPending | Accepted(frames: seq<seq<T>>)

  class OpenJocDecoder<T> {
    var sessionLive: bool
    var pending: seq<nat>
    var pendingDiscontinuity: bool
    ghost var trace: seq<Event<T>>
    ghost var baseQueue: nat  // compressed frames the base class holds

    /** The queue is what the trace since the last reset leaves, and the base class holds the same units. */
    ghost predicate Valid()
      reads this
    {
      Replay(trace) == Some(pending) && baseQueue == |pending|
    }

    constructor ()
      ensures Valid() && trace == [] && !sessionLive
    {
      sessionLive, pending, pendingDiscontinuity := false, [], false;
      trace, baseQueue := [], 0;
    }

    /** The base class may refuse any buffer; a refused call has no effect. */
    method FinishSubframe(output: Option<seq<T>>) returns (ok: bool)
      requires output.None? ==> baseQueue > 0
      modifies this`trace, this`baseQueue
      ensures !ok ==> trace == old(trace) && baseQueue == old(baseQueue)
      ensures ok && output.Some? ==> trace == old(trace) + [Sub(output.value)] && baseQueue == old(baseQueue)
      ensures ok && output.None? ==> trace == old(trace) + [Retire] && baseQueue == old(baseQueue) - 1
    {
      ok := *;
      if ok {
        if output.Some? {
          trace := trace + [Sub(output.value)];
        } else {
          trace := trace + [Retire];
          baseQueue := baseQueue - 1;
        }
      }
    }

    /** Output that belongs to no unit, when the base class holds none. */
    method FinishTail(output: seq<T>) returns (ok: bool)
      requires baseQueue == 0
      modifies this`trace
      ensures trace == if ok then old(trace) + [Tail(output)] else old(trace)
    {
      ok := *;
      if ok {
        trace := trace + [Tail(output)];
      }
    }

    /** What a failed call may leave: a unit whose last samples are out but which could not be retired. */
    ghost predicate Interrupted()
      reads this
    {
      && Replay(trace).Some?
      && (Replay(trace).value == pending || (pending != [] && Replay(trace).value == [0] + pending[1..]))
    }

    /** Sends one slice of a frame. */
    method PushSlice(slice: seq<T>, ghost rest: seq<T>) returns (ok: bool, count: nat)
      requires Valid() && slice != []
      modifies this`trace, this`pending, this`baseQueue
      ensures count <= |slice|
      ensures !ok ==> Interrupted()
      ensures ok ==> Valid()
      ensures ok ==> |pending| + (|slice| - count) < |old(pending)| + |slice|
      ensures ok ==>
        Output(trace) + Assign(pending, Retires(trace), slice[count..] + rest)
          == Output(old(trace)) + Assign(old(pending), Retires(old(trace)), slice + rest)
      ensures ok ==> Consume(pending, |slice[count..] + rest|) == Consume(old(pending), |slice + rest|)
    {
      hide Assign, Consume, Label, Output, Retires, Replay;
      count := if pending == [] || pending[0] > |slice| then |slice| else pending[0];
      var output := slice[..count];
      assert slice + rest == output + (slice[count..] + rest);
      ghost var start := trace;
      if pending != [] {
        ReplayStep(start, Sub(output));
        OutputStep(start, Sub(output));
        ok := FinishSubframe(Some(output));
        if !ok {
          return;
        }
        if count == pending[0] {
          ReplayStep(trace, Retire);
          OutputStep(trace, Retire);
          AssignRetire(pending, Retires(start), output, slice[count..] + rest);
          ok := FinishSubframe(None);
          if !ok {
            return;
          }
          pending := pending[1..];
        } else {
          AssignPart(pending, Retires(start), output, slice[count..] + rest);
          pending := [pending[0] - count] + pending[1..];
        }
      } else {
        ReplayStep(start, Tail(output));
        OutputStep(start, Tail(output));
        AssignTail(Retires(start), output, slice[count..] + rest);
        ok := FinishTail(output);
      }
    }

    /** `push_frames`. However the renderer slices its output, a successful call sends every sample once, in
        order, each on behalf of the unit it belongs to. */
    method PushFrames(frames: seq<seq<T>>) returns (ok: bool)
      requires Valid()
      modifies this`trace, this`pending, this`baseQueue
      ensures !ok ==> Interrupted()
      ensures ok ==> Valid()
      ensures ok ==> Output(trace) == Output(old(trace)) + Assign(old(pending), Retires(old(trace)), Flatten(frames))
      ensures ok ==> pending == Consume(old(pending), |Flatten(frames)|)
    {
      hide Assign, Consume, Output, Retires, Replay, Flatten;
      ghost var all := Flatten(frames);
      ghost var whole := Output(trace) + Assign(pending, Retires(trace), all);
      ghost var queue := Consume(pending, |all|);
      assert frames[0..] == frames;
      for i := 0 to |frames|
        invariant Valid()
        invariant Output(trace) + Assign(pending, Retires(trace), Flatten(frames[i..])) == whole
        invariant Consume(pending, |Flatten(frames[i..])|) == queue
      {
        var converted: bool := *;  // `pcm_buffer` may reject the frame
        if !converted {
          return false;
        }
        var frame, offset := frames[i], 0;
        ghost var later := Flatten(frames[i + 1..]);
        FlattenHead(frames, i);
        assert frame[0..] == frame;
        while offset < |frame|
          invariant offset <= |frame| && Valid()
          invariant Output(trace) + Assign(pending, Retires(trace), frame[offset..] + later) == whole
          invariant Consume(pending, |frame[offset..] + later|) == queue
          decreases |pending| + (|frame| - offset)
        {
          var sent, count := PushSlice(frame[offset..], later);
          if !sent {
            return false;
          }
          assert frame[offset..][count..] == frame[offset + count..];
          offset := offset + count;
        }
        assert frame[offset..] + later == later;
      }
      NothingLeft(pending, Retires(trace), Flatten(frames[|frames|..]), frames);
      return true;
    }

    /** `ensure_session_for_output_target`: a live session is kept, otherwise one is made for the negotiated
        target. `available` says whether configuration and construction of a new session succeed. */
    method EnsureSession(available: bool) returns (ok: bool)
      modifies this`sessionLive
      ensures ok == sessionLive == (old(sessionLive) || available)
    {
      if sessionLive {
        return true;
      }
      if !available {
        return false;
      }
      sessionLive := true;
      return true;
    }

    /** `handle_frame`, behind header and admission checks. `available` is whether a missing session can be
        made, `negotiated` the outcome of the output format. A session made for a packet outlives its refusal. */
    method HandleFrame(inputSamples: nat, discont: bool, available: bool, packet: PacketResult<T>, negotiated: bool)
        returns (ok: bool, ghost discontinuity: bool)
      requires Valid()
      modifies this
      ensures sessionLive == (old(sessionLive) || available)
      ensures !ok ==> Interrupted()
      ensures ok ==> Valid() && sessionLive && packet.Accepted? && !pendingDiscontinuity
      ensures ok ==> discontinuity == (discont || old(pendingDiscontinuity))
      ensures ok ==>
        Output(trace) == Output(old(trace)) +
          Assign(old(pending) + [inputSamples], Retires(old(trace)), Flatten(packet.frames))
      ensures ok ==> pending == Consume(old(pending) + [inputSamples], |Flatten(packet.frames)|)
      ensures !sessionLive || !packet.Accepted? ==>
        !ok && Valid() && trace == old(trace) && pending == old(pending) &&
          pendingDiscontinuity == old(pendingDiscontinuity)
      ensures sessionLive && packet.Accepted? && packet.frames == [] ==> ok
    {
      hide Assign, Consume, Output, Retires, Replay, Flatten;
      discontinuity := discont || pendingDiscontinuity;
      var session := EnsureSession(available);
      if !session || !packet.Accepted? {
        return false, discontinuity;
      }
      ReplayStep(trace, Admit(inputSamples));
      OutputStep(trace, Admit(inputSamples));
      pendingDiscontinuity := false;
      pending := pending + [inputSamples];
      trace, baseQueue := trace + [Admit(inputSamples)], baseQueue + 1;
      if packet.frames == [] {
        NoFrames(pending, Retires(trace), packet.frames);
        return true, discontinuity;
      }
      if !negotiated {
        return false, discontinuity;
      }
      ok := PushFrames(packet.frames);
    }

    /** `handle_drain`. */
    method HandleDrain(drained: Option<seq<seq<T>>>, negotiated: bool) returns (ok: bool)
      requires Valid()
      modifies this`trace, this`pending, this`baseQueue
      ensures !ok ==> Interrupted()
      ensures ok ==> Valid()
      ensures ok && sessionLive ==>
        && drained.Some?
        && Output(trace) == Output(old(trace)) + Assign(old(pending), Retires(old(trace)), Flatten(drained.value))
        && pending == Consume(old(pending), |Flatten(drained.value)|)
      ensures !sessionLive ==> ok && trace == old(trace) && pending == old(pending)
    {
      hide Assign, Consume, Output, Retires, Replay, Flatten;
      if !sessionLive {
        return true;
      }
      if drained.None? {
        return false;
      }
      if drained.value == [] {
        NoFrames(pending, Retires(trace), drained.value);
        return true;
      }
      if !negotiated {
        return false;
      }
      ok := PushFrames(drained.value);
    }

    /** `flush`: the base class has dropped its frames, and so do we; the next packet is discontinuous. */
    method Flush()
      modifies this
      ensures Valid() && pending == [] && trace == [] && pendingDiscontinuity && sessionLive == old(sessionLive)
    {
      pending, pendingDiscontinuity := [], true;
      trace, baseQueue := [], 0;
    }

    /** `set_format`, for classified caps: a caps change leaves the frames in the base class, so exactly the
        pending ones are discarded there before the queue is cleared; a refusal leaves everything as it was. */
    method SetFormat(auto: bool) returns (ok: bool)
      requires Valid()
      modifies this
      ensures Valid()
      ensures !ok ==> trace == old(trace) && pending == old(pending) && old(pending) != []
      ensures ok ==> pending == [] && trace == [] && baseQueue == 0 && !pendingDiscontinuity
      ensures ok ==> sessionLive == (old(sessionLive) && !auto)
      ensures ok ==> |old(pending)| < I32_LIMIT
    {
      if pending != [] {
        if |pending| >= I32_LIMIT {
          return false;
        }
        var finished: bool := *;
        if !finished {
          return false;
        }
        baseQueue := baseQueue - |pending|;
      }
      if auto {
        sessionLive := false;
      }
      pending, pendingDiscontinuity := [], false;
      trace := [];
      return true;
    }

    /** `start` and `stop`. */
    method Restart(session: bool)
      modifies this
      ensures Valid() && pending == [] && trace == [] && !pendingDiscontinuity && sessionLive == session
    {
      sessionLive, pending, pendingDiscontinuity := session, [], false;
      trace, baseQueue := [], 0;
    }
  }

  lemma FlattenHead<T>(frames: seq<seq<T>>, i: nat)
    requires i < |frames|
    ensures Flatten(frames[i..]) == frames[i] + Flatten(frames[i + 1..])
  {
    assert frames[i..][1..] == frames[i + 1..];
  }

  lemma NothingLeft<T>(queue: seq<nat>, retired: nat, rest: seq<T>, frames: seq<seq<T>>)
    requires rest == Flatten(frames[|frames|..])
    ensures rest == [] && Assign(queue, retired, rest) == [] && Consume(queue, |rest|) == queue
  {
  }
}
