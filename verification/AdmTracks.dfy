/** The PCM track table of an export plan. */
module AdmTracks {
  import opened Wrappers
  import opened Text
  import opened AdmIds

  datatype BedChannel = Left | Right | Center | Lfe | LeftSurround | RightSurround {
    function ChannelName(): string {
      match this
      case Left => "RoomCentricLeft"
      case Right => "RoomCentricRight"
      case Center => "RoomCentricCenter"
      case Lfe => "RoomCentricLFE"
      case LeftSurround => "RoomCentricLeftSurround"
      case RightSurround => "RoomCentricRightSurround"
    }

    function SpeakerLabel(): string {
      match this
      case Left => "RC_L"
      case Right => "RC_R"
      case Center => "RC_C"
      case Lfe => "RC_LFE"
      case LeftSurround => "RC_Ls"
      case RightSurround => "RC_Rs"
    }

    function Position(): (int, int, int) {
      match this
      case Left => (-1, 1, 0)
      case Right => (1, 1, 0)
      case Center => (0, 1, 0)
      case Lfe => (-1, 1, -1)
      case LeftSurround => (-1, -1, 0)
      case RightSurround => (1, -1, 0)
    }
  }

  const BED_CHANNELS: seq<BedChannel> := [Left, Right, Center, Lfe, LeftSurround, RightSurround]
  const MAX_SIGNALS: nat := 118

  datatype AdmPosition = AdmPosition(x: real, y: real, z: real)

  datatype DynamicBlock = DynamicBlock(start: nat, duration: nat, position: AdmPosition)

  datatype TrackKind = Bed(channel: BedChannel) | Reconstruction(index: nat) {
    function Type(): FormatType {
      if Bed? then DirectSpeakers else Objects
    }
  }

  datatype TrackDescriptor = TrackDescriptor(
    trackIndex: nat, uid: string, channelId: string, packId: string, streamId: string, trackId: string,
    kind: TrackKind, bound: bool, blocks: seq<DynamicBlock>)
  {
    /** The track with its dynamic metadata removed. */
    function Neutral(): TrackDescriptor {
      this.(bound := false, blocks := [])
    }

    /** The name of the channel format carrying this track. */
    function ChannelFormatName(): string {
      if kind.Reconstruction? && bound then "OpenJOC Reconstructed JOC Object " + Padded(kind.index + 1, 2, 10)
      else if kind.Reconstruction? then "OpenJOC Reconstructed Signal " + Padded(kind.index + 1, 2, 10)
      else kind.channel.ChannelName()
    }
  }

  function BedSize(lfe: bool): nat {
    if lfe then |BED_CHANNELS| else 0
  }

  /** The pack counter: the generated bed takes the first one. */
  function PackNumber(kind: TrackKind, lfe: bool): nat {
    if kind.Bed? then COUNTER_BASE else COUNTER_BASE + kind.index + (if lfe then 1 else 0)
  }

  function KindAt(i: nat, lfe: bool): TrackKind {
    if i < BedSize(lfe) then Bed(BED_CHANNELS[i]) else Reconstruction(i - BedSize(lfe))
  }

  /** Track `i` of a freshly built plan. */
  function PlannedTrack(i: nat, lfe: bool): TrackDescriptor {
    var kind, number := KindAt(i, lfe), COUNTER_BASE + i;
    TrackDescriptor(
      i + 1, UidOf(i + 1),
      FormatId(Channel, kind.Type(), number),
      FormatId(Pack, kind.Type(), PackNumber(kind, lfe)),
      FormatId(Stream, kind.Type(), number),
      TrackFormatId(kind.Type(), number),
      kind, false, [])
  }

  function PlannedTracks(signals: nat, lfe: bool): (tracks: seq<TrackDescriptor>)
    ensures |tracks| == signals + BedSize(lfe)
  {
    seq(signals + BedSize(lfe), i requires 0 <= i => PlannedTrack(i, lfe))
  }

  /** The tracks of a plan in any binding state: planned identity, and dynamic blocks only on
      reconstruction tracks. */
  ghost predicate IsTrackTable(tracks: seq<TrackDescriptor>, signals: nat, lfe: bool) {
    && 1 <= signals <= MAX_SIGNALS
    && |tracks| == signals + BedSize(lfe)
    && forall i :: 0 <= i < |tracks| ==> InPlace(tracks, i, lfe)
  }

  /** Track `i` has its planned identity; naming this predicate is what unfolds a track. */
  ghost predicate InPlace(tracks: seq<TrackDescriptor>, i: nat, lfe: bool)
    requires i < |tracks|
  {
    && tracks[i].Neutral() == PlannedTrack(i, lfe)
    && (tracks[i].kind.Bed? ==> tracks[i] == PlannedTrack(i, lfe))
  }

  /** Every identifier of a planned track is well formed, and channel, stream and track format share
      their counter. */
  lemma TrackIds(t: TrackDescriptor, i: nat, lfe: bool)
    requires t.Neutral() == PlannedTrack(i, lfe) && i < 0x1000
    ensures IsAdmId(t.uid, TrackUid) && Counter(t.uid, UidCounter) == Some(i + 1)
    ensures IsAdmId(t.channelId, Channel) && Counter(t.channelId, FormatCounter) == Some(COUNTER_BASE + i)
    ensures IsAdmId(t.streamId, Stream) && Counter(t.streamId, FormatCounter) == Some(COUNTER_BASE + i)
    ensures IsAdmId(t.trackId, TrackFormat) && Counter(t.trackId, FormatCounter) == Some(COUNTER_BASE + i)
    ensures IsAdmId(t.packId, Pack) && Counter(t.packId, FormatCounter) == Some(PackNumber(t.kind, lfe))
    ensures t.channelId[3..11] == t.streamId[3..11] == t.trackId[3..11] == FormatBody(t.kind.Type(), COUNTER_BASE + i)
    ensures t.channelId[3..7] == t.packId[3..7] == t.kind.Type().Label()
  {
    var n := COUNTER_BASE + i;
    FormatIdFacts(Channel, t.kind.Type(), n);
    FormatIdFacts(Stream, t.kind.Type(), n);
    FormatIdFacts(Pack, t.kind.Type(), PackNumber(t.kind, lfe));
    TrackFormatIdFacts(t.kind.Type(), n);
    UidFacts(i + 1);
  }
}
