/** Turning object metadata updates into the dynamic blocks of one reconstruction track. */
module AdmDynamics {
  import opened Wrappers
  import opened AdmErrors
  import opened AdmTracks
  import opened AdmPcm

  /** Where an update places its object: in the room, or somewhere ADM export does not accept. */
  datatype UpdatePosition = InRoom(x: Sample, y: Sample, z: Sample) | Elsewhere

  datatype MetadataUpdate = MetadataUpdate(objectId: nat, start: nat, active: bool, position: UpdatePosition)

  predicate Within(s: Sample, low: real, high: real) {
    s.Finite? && low <= s.value <= high
  }

  /** Room coordinates: x and y in [0, 1], z in [-1, 1]. */
  predicate Convertible(p: UpdatePosition) {
    p.InRoom? && Within(p.x, 0.0, 1.0) && Within(p.y, 0.0, 1.0) && Within(p.z, -1.0, 1.0)
  }

  predicate Normalized(p: AdmPosition) {
    -1.0 <= p.x <= 1.0 && -1.0 <= p.y <= 1.0 && -1.0 <= p.z <= 1.0
  }

  /** `position_for_adm`: both range checks, before and after the change of coordinates. */
  function PositionForAdm(p: UpdatePosition): (r: Result<AdmPosition, AdmError>)
    ensures r.Ok? <==> Convertible(p)
    ensures r.Ok? ==> Normalized(r.value)
    ensures r.Err? ==> r.error == UnsupportedDynamicMetadata
  {
    if p.Elsewhere? || p.x.NonFinite? || p.y.NonFinite? || p.z.NonFinite? then Err(UnsupportedDynamicMetadata)
    else if !(0.0 <= p.x.value <= 1.0) || !(0.0 <= p.y.value <= 1.0) || !(-1.0 <= p.z.value <= 1.0)
    then Err(UnsupportedDynamicMetadata)
    else
      var q := AdmPosition(2.0 * p.x.value - 1.0, 1.0 - 2.0 * p.y.value, p.z.value);
      if !(-1.0 <= q.x <= 1.0) || !(-1.0 <= q.y <= 1.0) || !(-1.0 <= q.z <= 1.0)
      then Err(UnsupportedDynamicMetadata)
      else Ok(q)
  }

  // ---------------------------------------------------------------- what the change of coordinates means

  function SpeakerX(c: BedChannel): real {
    c.Position().0 as real
  }

  function SpeakerY(c: BedChannel): real {
    c.Position().1 as real
  }

  /** `q` lies between the loudspeakers of the bed as `p` lies between the walls of the room: across from the left
      to the right one, back from the left to the left surround one, and as high. */
  ghost predicate IsImage(p: UpdatePosition, q: AdmPosition) {
    && Convertible(p)
    && q.x == SpeakerX(Left) + p.x.value * (SpeakerX(Right) - SpeakerX(Left))
    && q.y == SpeakerY(Left) + p.y.value * (SpeakerY(LeftSurround) - SpeakerY(Left))
    && q.z == p.z.value
  }

  function At(x: real, y: real, z: real): UpdatePosition {
    InRoom(Finite(x), Finite(y), Finite(z))
  }

  lemma ConversionIsImage(p: UpdatePosition)
    requires Convertible(p)
    ensures IsImage(p, PositionForAdm(p).value)
  {
  }

  /** The corners of the room, at any height, are the corner loudspeakers of the bed. */
  lemma CornersAreSpeakers(z: real)
    requires -1.0 <= z <= 1.0
    ensures PositionForAdm(At(0.0, 0.0, z)) == Ok(AdmPosition(SpeakerX(Left), SpeakerY(Left), z))
    ensures PositionForAdm(At(1.0, 0.0, z)) == Ok(AdmPosition(SpeakerX(Right), SpeakerY(Right), z))
    ensures PositionForAdm(At(0.0, 1.0, z)) == Ok(AdmPosition(SpeakerX(LeftSurround), SpeakerY(LeftSurround), z))
    ensures PositionForAdm(At(1.0, 1.0, z)) == Ok(AdmPosition(SpeakerX(RightSurround), SpeakerY(RightSurround), z))
  {
  }

  /** The middle of two room positions goes to the middle of their images. */
  lemma MidpointsStay(p: UpdatePosition, q: UpdatePosition)
    requires Convertible(p) && Convertible(q)
    ensures var a, b := PositionForAdm(p).value, PositionForAdm(q).value;
      PositionForAdm(At((p.x.value + q.x.value) / 2.0, (p.y.value + q.y.value) / 2.0, (p.z.value + q.z.value) / 2.0)) ==
        Ok(AdmPosition((a.x + b.x) / 2.0, (a.y + b.y) / 2.0, (a.z + b.z) / 2.0))
  {
  }

  // ---------------------------------------------------------------- the updates of one object

  /** The updates of one object, in timeline order. */
  function Updates(timeline: seq<MetadataUpdate>, objectId: nat): seq<MetadataUpdate> {
    if timeline == [] then []
    else Updates(timeline[..|timeline| - 1], objectId) +
         (if timeline[|timeline| - 1].objectId == objectId then [timeline[|timeline| - 1]] else [])
  }

  /** `picks` are the ascending places of all timeline entries of one object. */
  ghost predicate IsSelection(timeline: seq<MetadataUpdate>, objectId: nat, picks: seq<nat>) {
    && (forall k :: 0 <= k < |picks| ==> picks[k] < |timeline| && timeline[picks[k]].objectId == objectId)
    && (forall j, k :: 0 <= j < k < |picks| ==> picks[j] < picks[k])
    && (forall i :: 0 <= i < |timeline| && timeline[i].objectId == objectId ==> i in picks)
  }

  lemma {:induction false} SelectionExists(timeline: seq<MetadataUpdate>, objectId: nat) returns (picks: seq<nat>)
    ensures IsSelection(timeline, objectId, picks)
  {
    if timeline == [] {
      picks := [];
    } else {
      var last := |timeline| - 1;
      var before := SelectionExists(timeline[..last], objectId);
      picks := before + if timeline[last].objectId == objectId then [last] else [];
      assert forall i :: 0 <= i < last ==> timeline[..last][i] == timeline[i];
      forall i | 0 <= i < |timeline| && timeline[i].objectId == objectId
        ensures i in picks
      {
        if i < last {
          assert timeline[..last][i].objectId == objectId;
          assert i in before;
        } else {
          assert picks[|picks| - 1] == last;
        }
      }
    }
  }

  lemma {:induction false} UpdatesAreSelected(timeline: seq<MetadataUpdate>, objectId: nat, picks: seq<nat>)
    requires IsSelection(timeline, objectId, picks)
    ensures |Updates(timeline, objectId)| == |picks|
    ensures forall k :: 0 <= k < |picks| ==> Updates(timeline, objectId)[k] == timeline[picks[k]]
  {
    if timeline == [] {
      PicksAreInside(timeline, objectId, picks);
    } else {
      var last := |timeline| - 1;
      var before := DropLast(timeline, objectId, picks);
      UpdatesAreSelected(timeline[..last], objectId, before);
    }
  }

  lemma PicksAreInside(timeline: seq<MetadataUpdate>, objectId: nat, picks: seq<nat>)
    requires IsSelection(timeline, objectId, picks)
    ensures forall k :: 0 <= k < |picks| ==> picks[k] < |timeline|
    ensures picks != [] ==> timeline != []
  {
    if picks != [] {
      assert picks[0] < |timeline|;
    }
  }

  lemma LastIsGreatest(timeline: seq<MetadataUpdate>, objectId: nat, picks: seq<nat>, k: nat)
    requires IsSelection(timeline, objectId, picks) && k < |picks|
    ensures picks[k] <= picks[|picks| - 1] < |timeline|
  {
    if k < |picks| - 1 {
      assert picks[k] < picks[|picks| - 1];
    }
  }

  /** Without the last timeline entry, the selection loses that entry if it has it. */
  lemma DropLast(timeline: seq<MetadataUpdate>, objectId: nat, picks: seq<nat>) returns (before: seq<nat>)
    requires IsSelection(timeline, objectId, picks) && timeline != []
    ensures var last := |timeline| - 1;
      && IsSelection(timeline[..last], objectId, before)
      && picks == before + if timeline[last].objectId == objectId then [last] else []
  {
    var last := |timeline| - 1;
    if timeline[last].objectId == objectId {
      var k :| 0 <= k < |picks| && picks[k] == last;
      LastIsGreatest(timeline, objectId, picks, k);
      before := picks[..|picks| - 1];
    } else {
      before := picks;
      assert forall j :: 0 <= j < |picks| ==> picks[j] != last;
    }
    StillSelected(timeline, objectId, picks, before);
  }

  lemma StillSelected(timeline: seq<MetadataUpdate>, objectId: nat, picks: seq<nat>, before: seq<nat>)
    requires IsSelection(timeline, objectId, picks) && timeline != []
    requires var last := |timeline| - 1;
      && last !in before
      && picks == before + if timeline[last].objectId == objectId then [last] else []
    ensures IsSelection(timeline[..|timeline| - 1], objectId, before)
  {
    var last := |timeline| - 1;
    forall j | 0 <= j < |before|
      ensures before[j] < last && timeline[..last][before[j]].objectId == objectId
    {
      assert picks[j] == before[j] && before[j] in before;
    }
    forall j, k | 0 <= j < k < |before|
      ensures before[j] < before[k]
    {
      assert before[j] == picks[j] < picks[k] == before[k];
    }
    forall i | 0 <= i < last && timeline[..last][i].objectId == objectId
      ensures i in before
    {
      assert timeline[i].objectId == objectId && i in picks;
    }
  }

  function NextStart(updates: seq<MetadataUpdate>, i: nat, duration: nat): nat {
    if i + 1 < |updates| then updates[i + 1].start else duration
  }

  /** The updates of one object drive a whole programme: all active and convertible, the first at sample
      zero, each strictly before the next, none at or after the end. */
  predicate UpdatesOk(updates: seq<MetadataUpdate>, duration: nat) {
    && updates != [] && updates[0].start == 0
    && forall i :: 0 <= i < |updates| ==> UpdateOk(updates, i, duration)
  }

  predicate UpdateOk(updates: seq<MetadataUpdate>, i: nat, duration: nat)
    requires i < |updates|
  {
    && updates[i].active && Convertible(updates[i].position)
    && updates[i].start < NextStart(updates, i, duration) <= duration
  }

  function BlockOf(updates: seq<MetadataUpdate>, i: nat, duration: nat): DynamicBlock
    requires i < |updates| && UpdateOk(updates, i, duration)
  {
    DynamicBlock(updates[i].start, NextStart(updates, i, duration) - updates[i].start,
      PositionForAdm(updates[i].position).value)
  }

  function BlocksOf(updates: seq<MetadataUpdate>, duration: nat): (blocks: seq<DynamicBlock>)
    requires UpdatesOk(updates, duration)
    ensures |blocks| == |updates|
  {
    seq(|updates|, i requires 0 <= i < |updates| && UpdateOk(updates, i, duration) => BlockOf(updates, i, duration))
  }

  /** Blocks cover the programme without gap or overlap. */
  ghost predicate Tiles(blocks: seq<DynamicBlock>, duration: nat) {
    && blocks != [] && blocks[0].start == 0
    && (forall i :: 0 <= i < |blocks| ==> blocks[i].duration > 0 && Normalized(blocks[i].position))
    && (forall i :: 0 <= i < |blocks| - 1 ==> blocks[i].start + blocks[i].duration == blocks[i + 1].start)
    && blocks[|blocks| - 1].start + blocks[|blocks| - 1].duration == duration
  }

  function TotalDuration(blocks: seq<DynamicBlock>): nat {
    if blocks == [] then 0 else TotalDuration(blocks[..|blocks| - 1]) + blocks[|blocks| - 1].duration
  }

  lemma BlocksTile(updates: seq<MetadataUpdate>, duration: nat)
    requires UpdatesOk(updates, duration)
    ensures Tiles(BlocksOf(updates, duration), duration)
  {
    var blocks := BlocksOf(updates, duration);
    forall i | 0 <= i < |blocks|
      ensures blocks[i] == BlockOf(updates, i, duration) && UpdateOk(updates, i, duration)
    {
    }
  }

  /** The blocks are those of the selected updates, one each and in their order: each starts with its update, lasts
      until the next one or the end, and stands at the image of the update's room position. */
  ghost predicate Follows(blocks: seq<DynamicBlock>, timeline: seq<MetadataUpdate>, picks: seq<nat>, duration: nat)
    requires forall k :: 0 <= k < |picks| ==> picks[k] < |timeline|
  {
    && |blocks| == |picks|
    && forall k :: 0 <= k < |picks| ==>
      && blocks[k].start == timeline[picks[k]].start
      && blocks[k].start + blocks[k].duration ==
           (if k + 1 < |picks| then timeline[picks[k + 1]].start else duration)
      && IsImage(timeline[picks[k]].position, blocks[k].position)
  }

  lemma BlocksFollow(timeline: seq<MetadataUpdate>, objectId: nat, picks: seq<nat>, duration: nat)
    requires IsSelection(timeline, objectId, picks) && UpdatesOk(Updates(timeline, objectId), duration)
    ensures Follows(BlocksOf(Updates(timeline, objectId), duration), timeline, picks, duration)
  {
    hide Updates, PositionForAdm, IsImage, Convertible, IsSelection;
    PicksAreInside(timeline, objectId, picks);
    UpdatesAreSelected(timeline, objectId, picks);
    var updates := Updates(timeline, objectId);
    var blocks := BlocksOf(updates, duration);
    forall k | 0 <= k < |picks|
      ensures blocks[k] == BlockOf(updates, k, duration) && IsImage(timeline[picks[k]].position, blocks[k].position)
    {
      assert UpdateOk(updates, k, duration) && blocks[k] == BlockOf(updates, k, duration);
      ConversionIsImage(updates[k].position);
    }
  }

  /** Tiling blocks last exactly as long as the programme. */
  lemma {:induction false} TilesAddUp(blocks: seq<DynamicBlock>, k: nat)
    requires k < |blocks| && blocks[0].start == 0
    requires forall i :: 0 <= i < |blocks| - 1 ==> blocks[i].start + blocks[i].duration == blocks[i + 1].start
    ensures TotalDuration(blocks[..k + 1]) == blocks[k].start + blocks[k].duration
  {
    assert blocks[..k + 1][..k] == blocks[..k];
    if k > 0 {
      TilesAddUp(blocks, k - 1);
    }
  }

  lemma TilesTotal(blocks: seq<DynamicBlock>, duration: nat)
    requires Tiles(blocks, duration)
    ensures TotalDuration(blocks) == duration
  {
    TilesAddUp(blocks, |blocks| - 1);
    assert blocks[..|blocks|] == blocks;
  }

  lemma FilterStep(timeline: seq<MetadataUpdate>, i: nat, objectId: nat)
    requires i < |timeline|
    ensures Updates(timeline[..i + 1], objectId) ==
      Updates(timeline[..i], objectId) + (if timeline[i].objectId == objectId then [timeline[i]] else [])
  {
    assert timeline[..i + 1][..i] == timeline[..i];
  }

  /** Filters the timeline for one object. */
  method SelectUpdates(timeline: seq<MetadataUpdate>, objectId: nat) returns (updates: seq<MetadataUpdate>)
    ensures updates == Updates(timeline, objectId)
  {
    hide Updates;
    updates := [];
    NoUpdates(timeline, objectId);
    for i := 0 to |timeline|
      invariant updates == Updates(timeline[..i], objectId)
    {
      FilterStep(timeline, i, objectId);
      if timeline[i].objectId == objectId {
        updates := updates + [timeline[i]];
      }
    }
    assert timeline[..|timeline|] == timeline;
  }

  /** Builds the blocks of one object, failing exactly when its updates do not drive the programme. */
  method BuildBlocks(timeline: seq<MetadataUpdate>, objectId: nat, duration: nat)
      returns (r: Result<seq<DynamicBlock>, AdmError>)
    ensures r.Ok? <==> UpdatesOk(Updates(timeline, objectId), duration)
    ensures r.Ok? ==> r.value == BlocksOf(Updates(timeline, objectId), duration)
    ensures r.Err? ==> r.error == UnsupportedDynamicMetadata
  {
    hide Updates, Convertible;
    var updates := SelectUpdates(timeline, objectId);
    if updates == [] {
      return Err(UnsupportedDynamicMetadata);
    }
    if exists i | 0 <= i < |updates| :: !updates[i].active {
      var i :| 0 <= i < |updates| && !updates[i].active;
      assert !UpdateOk(updates, i, duration);
      return Err(UnsupportedDynamicMetadata);
    }
    var blocks: seq<DynamicBlock> := [];
    for i := 0 to |updates|
      invariant |blocks| == i
      invariant forall k :: 0 <= k < i ==> UpdateOk(updates, k, duration) && blocks[k] == BlockOf(updates, k, duration)
    {
      var next := if i + 1 < |updates| then updates[i + 1].start else duration;
      if updates[i].start >= next || next > duration {
        assert !UpdateOk(updates, i, duration);
        return Err(UnsupportedDynamicMetadata);
      }
      var position := PositionForAdm(updates[i].position);
      if position.Err? {
        assert !UpdateOk(updates, i, duration);
        return Err(position.error);
      }
      blocks := blocks + [DynamicBlock(updates[i].start, next - updates[i].start, position.value)];
    }
    assert UpdateOk(updates, 0, duration) && blocks[0] == BlockOf(updates, 0, duration);
    assert UpdateOk(updates, |updates| - 1, duration) &&
      blocks[|updates| - 1] == BlockOf(updates, |updates| - 1, duration);
    var last := blocks[|blocks| - 1];
    if blocks[0].start != 0 || last.start + last.duration != duration {
      return Err(UnsupportedDynamicMetadata);
    }
    assert blocks == BlocksOf(updates, duration);
    return Ok(blocks);
  }

  lemma NoUpdates(timeline: seq<MetadataUpdate>, objectId: nat)
    ensures Updates(timeline[..0], objectId) == []
  {
  }
}
