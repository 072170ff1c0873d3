/** Admission of a decoded-object binding: which scenes may bind metadata objects to reconstruction rows. */
module AdmAdmission {
  import opened Wrappers
  import opened AdmDynamics

  datatype CodecProfile = ObservedOrdinary | ObservedOrdinaryCompatWarp3 | UnsupportedCodec

  /** The token of an admitted binding. */
  datatype BindingProfile = BindingProfile(codec: CodecProfile, jocObjectCount: nat)

  /** Class of an object in a scene, and of an object in the carrier's total list. */
  datatype SceneClass = BedOrIsf | Lfe | Dynamic

  datatype CarrierClass = BaseLfe | CarrierBed | CarrierIsf | DynamicObject

  datatype BindingFacts = BindingFacts(codec: CodecProfile, jocObjectCount: nat, rowCount: nat,
      classes: seq<CarrierClass>)

  datatype Unavailable =
    | UnsupportedCodecProfile
    | OamdTotalPopulationMismatch
    | BaseLfeBindingPrecondition
    | UnsupportedBed(index: nat)
    | UnsupportedIsf(index: nat)
    | OamdObjectOrdering(index: nat)
    | ObjectPopulationMismatch
    | MissingOamdMetadata(index: nat)

  const TOTAL_OBJECTS: nat := 16
  const DYNAMIC_OBJECTS: nat := 15

  // ---------------------------------------------------------------- admission

  /** One LFE in front of fifteen dynamic objects, one per reconstruction row, in a supported profile. */
  ghost predicate IsAdmitted(f: BindingFacts) {
    && !f.codec.UnsupportedCodec?
    && |f.classes| == TOTAL_OBJECTS && f.classes[0] == BaseLfe
    && (forall k :: 1 <= k < |f.classes| ==> f.classes[k] == DynamicObject)
    && f.jocObjectCount == f.rowCount == DYNAMIC_OBJECTS
  }

  /** The error that names the first object which is not dynamic. */
  function ClassError(c: CarrierClass, index: nat): Unavailable
    requires !c.DynamicObject?
  {
    match c
    case CarrierBed => UnsupportedBed(index)
    case CarrierIsf => UnsupportedIsf(index)
    case BaseLfe => OamdObjectOrdering(index)
  }

  ghost predicate FirstMisplaced(classes: seq<CarrierClass>, k: nat) {
    && 1 <= k < |classes| && !classes[k].DynamicObject?
    && forall i :: 1 <= i < k ==> classes[i].DynamicObject?
  }

  /** `admit_decoded_joc_binding`. A list of the right length that starts with the LFE is refused for its first
      object that is not dynamic, and only then for its populations. */
  method AdmitDecodedJocBinding(f: BindingFacts) returns (r: Result<BindingProfile, Unavailable>)
    ensures r.Ok? <==> IsAdmitted(f)
    ensures r.Ok? ==> r.value == BindingProfile(f.codec, DYNAMIC_OBJECTS)
    ensures !f.codec.UnsupportedCodec? && |f.classes| == TOTAL_OBJECTS && f.classes[0].BaseLfe? ==>
      forall k: nat :: FirstMisplaced(f.classes, k) ==> r == Err(ClassError(f.classes[k], k))
  {
    if f.codec.UnsupportedCodec? {
      return Err(UnsupportedCodecProfile);
    }
    if |f.classes| != TOTAL_OBJECTS {
      return Err(OamdTotalPopulationMismatch);
    }
    if !f.classes[0].BaseLfe? {
      return Err(BaseLfeBindingPrecondition);
    }
    var dynamicCount := 0;
    for k := 1 to |f.classes|
      invariant dynamicCount == k - 1
      invariant forall i :: 1 <= i < k ==> f.classes[i].DynamicObject?
    {
      match f.classes[k] {
        case DynamicObject => dynamicCount := dynamicCount + 1;
        case CarrierBed => return Err(UnsupportedBed(k));
        case CarrierIsf => return Err(UnsupportedIsf(k));
        case BaseLfe => return Err(OamdObjectOrdering(k));
      }
    }
    if f.jocObjectCount != DYNAMIC_OBJECTS || f.rowCount != DYNAMIC_OBJECTS || dynamicCount != DYNAMIC_OBJECTS {
      return Err(ObjectPopulationMismatch);
    }
    return Ok(BindingProfile(f.codec, f.jocObjectCount));
  }

  // ---------------------------------------------------------------- a scene's binding

  function CarrierClassOf(c: SceneClass): CarrierClass {
    match c
    case Lfe => BaseLfe
    case Dynamic => DynamicObject
    case BedOrIsf => CarrierBed
  }

  /** `from_scene_classes`. */
  function SceneFacts(rows: nat, classes: seq<SceneClass>): BindingFacts {
    BindingFacts(ObservedOrdinary, rows, rows,
      seq(|classes|, i requires 0 <= i < |classes| => CarrierClassOf(classes[i])))
  }

  /** The scene holds an LFE and fifteen dynamic objects for its fifteen rows. */
  ghost predicate SceneAdmitted(rows: nat, classes: seq<SceneClass>) {
    && rows == DYNAMIC_OBJECTS && |classes| == TOTAL_OBJECTS && classes[0].Lfe?
    && forall k :: 1 <= k < |classes| ==> classes[k].Dynamic?
  }

  lemma SceneAdmission(rows: nat, classes: seq<SceneClass>)
    ensures IsAdmitted(SceneFacts(rows, classes)) <==> SceneAdmitted(rows, classes)
  {
    var f := SceneFacts(rows, classes);
    assert forall k :: 0 <= k < |classes| ==> f.classes[k] == CarrierClassOf(classes[k]);
    if IsAdmitted(f) {
      forall k | 1 <= k < |classes|
        ensures classes[k].Dynamic?
      {
        assert f.classes[k] == DynamicObject;
      }
    }
  }

  /** Every object of the carrier has an update; index zero is the LFE. */
  ghost predicate AllUpdated(timeline: seq<MetadataUpdate>, count: nat) {
    forall total :: 1 <= total <= count ==> Updates(timeline, total) != []
  }

  /** `bind_scene_objects`: the updates of each bound object, or the first object without any. */
  method BindSceneObjects(profile: BindingProfile, rows: nat, timeline: seq<MetadataUpdate>)
      returns (r: Result<seq<seq<MetadataUpdate>>, Unavailable>)
    ensures r.Ok? <==> rows == profile.jocObjectCount && AllUpdated(timeline, rows)
    ensures r.Ok? ==> |r.value| == rows && forall j :: 0 <= j < rows ==> r.value[j] == Updates(timeline, j + 1)
    ensures r.Err? && rows == profile.jocObjectCount ==>
      && r.error.MissingOamdMetadata? && 1 <= r.error.index <= rows
      && Updates(timeline, r.error.index) == [] && AllUpdated(timeline, r.error.index - 1)
  {
    hide Updates;
    if rows != profile.jocObjectCount {
      return Err(ObjectPopulationMismatch);
    }
    var views: seq<seq<MetadataUpdate>> := [];
    for ordinal := 0 to rows
      invariant |views| == ordinal && AllUpdated(timeline, ordinal)
      invariant forall j :: 0 <= j < ordinal ==> views[j] == Updates(timeline, j + 1)
    {
      var metadata := SelectUpdates(timeline, ordinal + 1);
      if metadata == [] {
        return Err(MissingOamdMetadata(ordinal + 1));
      }
      views := views + [metadata];
    }
    return Ok(views);
  }
}
