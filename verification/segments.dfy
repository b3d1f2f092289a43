/**
  The segment document: the record a traced service reports for one request,
  its lifecycle (`begin` names it and defaults the rest, `end` stamps the end
  time), and its JSON form. The serializer's skip rules decide which keys the
  document carries: the four identity fields always, each `Option` field only
  when `Some`, and each flag only when `true`.
 */
module Segments {
  import opened Wrappers
  import opened Ints
  import opened Time
  import opened Json
  import opened Fields
  import opened Ids
  import opened Causes
  import opened Blocks

  /** Longest name `begin` keeps, in UTF-8 code units. */
  const MAX_NAME_LENGTH: nat := 200

  datatype Segment = Segment(
    trace_id: TraceId,
    id: SegmentId,
    name: string,
    start_time: Seconds,
    end_time: Option<Seconds>,
    in_progress: bool,
    parent_id: Option<SegmentId>,
    fault: bool,
    error: bool,
    throttle: bool,
    cause: Option<Cause>,
    origin: Option<string>,
    user: Option<string>,
    resource_arn: Option<string>,
    annotations: Option<map<string, Annotation>>,
    metadata: Option<map<string, Json>>,
    aws: Option<Aws>,
    service: Option<Service>)

  /** Every field past the identity is at its type's default: `None` or `false`. */
  predicate IsUnset(s: Segment)
  {
    && s.end_time.None? && !s.in_progress && s.parent_id.None?
    && !s.fault && !s.error && !s.throttle
    && s.cause.None? && s.origin.None? && s.user.None? && s.resource_arn.None?
    && s.annotations.None? && s.metadata.None? && s.aws.None? && s.service.None?
  }

  // ---------------------------------------------------------------------------
  // Lifecycle

  /**
    `Segment::default()`: a fresh trace id and segment id, an empty name, the
    current time, and every other field at its default. The clock is read
    twice, once for the trace id and once for the start time.
   */
  function DefaultSegment(traceClock: Seconds, traceRandom: Bytes12, idRandom: Bytes8, startClock: Seconds): (s: Segment)
    ensures s.trace_id == NewTraceId(traceClock, traceRandom) && s.id == NewSegmentId(idRandom)
    ensures s.name == [] && s.start_time == startClock
    ensures IsUnset(s)
  {
    Segment(NewTraceId(traceClock, traceRandom), NewSegmentId(idRandom), "", startClock,
            None, false, None, false, false, false, None, None, None, None, None, None, None, None)
  }

  /** A UTF-8 continuation unit: slicing a string just before one would split a character. */
  predicate IsContinuation(c: char)
  {
    0x80 <= c as int < 0xC0
  }

  /**
    `Segment::begin`: the name cut to its first 200 units, everything else as
    in `DefaultSegment`. The crate panics when the cut falls inside a
    character, so a caller must not ask for that.
   */
  function Begin(name: string, traceClock: Seconds, traceRandom: Bytes12, idRandom: Bytes8, startClock: Seconds): (s: Segment)
    requires |name| > MAX_NAME_LENGTH ==> !IsContinuation(name[MAX_NAME_LENGTH])
    ensures |s.name| <= MAX_NAME_LENGTH && s.name <= name
    ensures |name| <= MAX_NAME_LENGTH ==> s.name == name
    ensures |name| > MAX_NAME_LENGTH ==> |s.name| == MAX_NAME_LENGTH
    ensures s == DefaultSegment(traceClock, traceRandom, idRandom, startClock).(name := s.name)
  {
    var valid_name := if |name| > MAX_NAME_LENGTH then name[..MAX_NAME_LENGTH] else name;
    DefaultSegment(traceClock, traceRandom, idRandom, startClock).(name := valid_name)
  }

  /** `Segment::end`: stamps the end time and clears `in_progress`, nothing else. */
  function End(s: Segment, now: Seconds): (r: Segment)
    ensures r.end_time == Some(now) && !r.in_progress
    ensures r.(end_time := s.end_time, in_progress := s.in_progress) == s
  {
    s.(end_time := Some(now), in_progress := false)
  }

  /** Ending twice is ending once at the later time. */
  lemma EndTwice(s: Segment, first: Seconds, second: Seconds)
    ensures End(End(s, first), second) == End(s, second)
    ensures End(End(s, first), second) == End(s, first).(end_time := Some(second))
  {
  }

  // ---------------------------------------------------------------------------
  // Emitted keys

  const IDENTITY_KEYS: set<string> := {"trace_id", "id", "name", "start_time"}

  function StateKeys(s: Segment): (r: set<string>)
    ensures ("end_time" in r <==> s.end_time.Some?) && ("parent_id" in r <==> s.parent_id.Some?)
    ensures ("in_progress" in r <==> s.in_progress) && ("fault" in r <==> s.fault)
    ensures ("error" in r <==> s.error) && ("throttle" in r <==> s.throttle)
  {
    KeyIf(s.end_time.Some?, "end_time") + KeyIf(s.in_progress, "in_progress")
      + KeyIf(s.parent_id.Some?, "parent_id") + KeyIf(s.fault, "fault")
      + KeyIf(s.error, "error") + KeyIf(s.throttle, "throttle")
  }

  function DetailKeys(s: Segment): (r: set<string>)
    ensures ("cause" in r <==> s.cause.Some?) && ("origin" in r <==> s.origin.Some?)
    ensures ("user" in r <==> s.user.Some?) && ("resource_arn" in r <==> s.resource_arn.Some?)
  {
    KeyIf(s.cause.Some?, "cause") + KeyIf(s.origin.Some?, "origin")
      + KeyIf(s.user.Some?, "user") + KeyIf(s.resource_arn.Some?, "resource_arn")
  }

  function ContextKeys(s: Segment): (r: set<string>)
    ensures ("annotations" in r <==> s.annotations.Some?) && ("metadata" in r <==> s.metadata.Some?)
    ensures ("aws" in r <==> s.aws.Some?) && ("service" in r <==> s.service.Some?)
  {
    KeyIf(s.annotations.Some?, "annotations") + KeyIf(s.metadata.Some?, "metadata")
      + KeyIf(s.aws.Some?, "aws") + KeyIf(s.service.Some?, "service")
  }

  /**
    The keys of a segment's document: the identity fields always, each
    `Option` field when `Some`, each flag when `true`.
   */
  function EmittedKeys(s: Segment): (r: set<string>)
    ensures IDENTITY_KEYS <= r
    ensures r <= IDENTITY_KEYS + STATE_NAMES + DETAIL_NAMES + CONTEXT_NAMES
  {
    GroupKeys(s);
    IDENTITY_KEYS + StateKeys(s) + DetailKeys(s) + ContextKeys(s)
  }

  /** A key of one group is in the document exactly when that group emits it. */
  lemma EmittedByGroup(s: Segment, k: string)
    ensures k in STATE_NAMES ==> (k in EmittedKeys(s) <==> k in StateKeys(s))
    ensures k in DETAIL_NAMES ==> (k in EmittedKeys(s) <==> k in DetailKeys(s))
    ensures k in CONTEXT_NAMES ==> (k in EmittedKeys(s) <==> k in ContextKeys(s))
  {
    GroupsDisjoint();
    GroupKeys(s);
  }

  /**
    Each key that `skip_serializing_if` governs is in the document exactly
    when its field is set: `Some` for an `Option`, `true` for a flag.
   */
  lemma EmittedKeysByField(s: Segment)
    ensures ("end_time" in EmittedKeys(s) <==> s.end_time.Some?) && ("parent_id" in EmittedKeys(s) <==> s.parent_id.Some?)
    ensures ("in_progress" in EmittedKeys(s) <==> s.in_progress) && ("fault" in EmittedKeys(s) <==> s.fault)
    ensures ("error" in EmittedKeys(s) <==> s.error) && ("throttle" in EmittedKeys(s) <==> s.throttle)
    ensures ("cause" in EmittedKeys(s) <==> s.cause.Some?) && ("origin" in EmittedKeys(s) <==> s.origin.Some?)
    ensures ("user" in EmittedKeys(s) <==> s.user.Some?) && ("resource_arn" in EmittedKeys(s) <==> s.resource_arn.Some?)
    ensures ("annotations" in EmittedKeys(s) <==> s.annotations.Some?) && ("metadata" in EmittedKeys(s) <==> s.metadata.Some?)
    ensures ("aws" in EmittedKeys(s) <==> s.aws.Some?) && ("service" in EmittedKeys(s) <==> s.service.Some?)
  {
    forall k | k in STATE_NAMES + DETAIL_NAMES + CONTEXT_NAMES
      ensures k in STATE_NAMES ==> (k in EmittedKeys(s) <==> k in StateKeys(s))
      ensures k in DETAIL_NAMES ==> (k in EmittedKeys(s) <==> k in DetailKeys(s))
      ensures k in CONTEXT_NAMES ==> (k in EmittedKeys(s) <==> k in ContextKeys(s))
    {
      EmittedByGroup(s, k);
    }
  }

  /** A segment's document holds only the identity keys exactly when nothing else is set. */
  lemma UnsetKeys(s: Segment)
    ensures EmittedKeys(s) == IDENTITY_KEYS <==> IsUnset(s)
  {
    GroupsDisjoint();
    if !IsUnset(s) {
      assert StateKeys(s) + DetailKeys(s) + ContextKeys(s) != {};
      GroupKeys(s);
    }
  }

  /** A begun segment's document holds only its identity: the trace id, id, name and start time. */
  lemma BeginKeys(name: string, traceClock: Seconds, traceRandom: Bytes12, idRandom: Bytes8, startClock: Seconds)
    requires |name| > MAX_NAME_LENGTH ==> !IsContinuation(name[MAX_NAME_LENGTH])
    ensures EmittedKeys(Begin(name, traceClock, traceRandom, idRandom, startClock)) == {"trace_id", "id", "name", "start_time"}
  {
    UnsetKeys(Begin(name, traceClock, traceRandom, idRandom, startClock));
  }

  /** Ending adds `end_time` to the document and drops `in_progress`; no other key changes. */
  lemma EndKeys(s: Segment, now: Seconds)
    ensures EmittedKeys(End(s, now)) == EmittedKeys(s) - {"in_progress"} + {"end_time"}
  {
    var e := End(s, now);
    EndStateKeys(s, now);
    InProgressIsState(s);
    assert DetailKeys(e) == DetailKeys(s) && ContextKeys(e) == ContextKeys(s);
    ReplaceInGroup(IDENTITY_KEYS, StateKeys(s), StateKeys(e), DetailKeys(s), ContextKeys(s), "in_progress", "end_time");
  }

  /** Swapping one member of the second group swaps it in the union, when the others lack it. */
  lemma ReplaceInGroup<K>(a: set<K>, b: set<K>, b': set<K>, c: set<K>, d: set<K>, x: K, y: K)
    requires b' == b - {x} + {y} && x !in a + c + d
    ensures a + b' + c + d == (a + b + c + d) - {x} + {y}
  {
  }

  lemma EndStateKeys(s: Segment, now: Seconds)
    ensures StateKeys(End(s, now)) == StateKeys(s) - {"in_progress"} + {"end_time"}
  {
  }

  lemma InProgressIsState(s: Segment)
    ensures "in_progress" !in IDENTITY_KEYS + DetailKeys(s) + ContextKeys(s)
  {
    GroupsDisjoint();
    GroupKeys(s);
  }

  // ---------------------------------------------------------------------------
  // Serialization

  function EncodeAnnotations(a: map<string, Annotation>): Json
  {
    EncodeMap(a, EncodeAnnotation)
  }

  function DecodeAnnotations(j: Json): Result<map<string, Annotation>, string>
  {
    DecodeMap(j, DecodeAnnotation)
  }

  /** Metadata values are arbitrary JSON, kept as they are. */
  function EncodeMetadata(m: map<string, Json>): Json
  {
    JObject(m)
  }

  function DecodeMetadata(j: Json): (r: Result<map<string, Json>, string>)
    ensures r.Success? <==> j.JObject?
  {
    if j.JObject? then Success(j.fields) else Failure("invalid type: expected a map")
  }

  function IdentityMembers(s: Segment): (m: Members)
    ensures m.Keys == IDENTITY_KEYS
  {
    var m := Put(map[], "trace_id", SerializeTraceId(s.trace_id));
    var m := Put(m, "id", SerializeSegmentId(s.id));
    var m := Put(m, "name", JString(s.name));
    Put(m, "start_time", EncodeSeconds(s.start_time))
  }

  lemma IdentityGets(s: Segment)
    ensures Get(IdentityMembers(s), "trace_id") == Some(SerializeTraceId(s.trace_id))
    ensures Get(IdentityMembers(s), "id") == Some(SerializeSegmentId(s.id))
    ensures Get(IdentityMembers(s), "name") == Some(JString(s.name))
    ensures Get(IdentityMembers(s), "start_time") == Some(EncodeSeconds(s.start_time))
  {
  }

  function StateMembers(s: Segment): (m: Members)
    ensures m.Keys == StateKeys(s)
  {
    var m := PutOpt(map[], "end_time", s.end_time, EncodeSeconds);
    var m := PutFlag(m, "in_progress", s.in_progress);
    var m := PutOpt(m, "parent_id", s.parent_id, SerializeSegmentId);
    var m := PutFlag(m, "fault", s.fault);
    var m := PutFlag(m, "error", s.error);
    PutFlag(m, "throttle", s.throttle)
  }

  function DetailMembers(s: Segment): (m: Members)
    ensures m.Keys == DetailKeys(s)
  {
    var m := PutOpt(map[], "cause", s.cause, EncodeCause);
    var m := PutOpt(m, "origin", s.origin, EncodeString);
    var m := PutOpt(m, "user", s.user, EncodeString);
    PutOpt(m, "resource_arn", s.resource_arn, EncodeString)
  }

  function ContextMembers(s: Segment): (m: Members)
    ensures m.Keys == ContextKeys(s)
  {
    var m := PutOpt(map[], "annotations", s.annotations, EncodeAnnotations);
    var m := PutOpt(m, "metadata", s.metadata, EncodeMetadata);
    var m := PutOpt(m, "aws", s.aws, EncodeAws);
    PutOpt(m, "service", s.service, EncodeService)
  }

  function SegmentMembers(s: Segment): (m: Members)
    ensures m.Keys == EmittedKeys(s)
  {
    IdentityMembers(s) + StateMembers(s) + DetailMembers(s) + ContextMembers(s)
  }

  /** The document carries exactly the emitted keys. */
  function EncodeSegment(s: Segment): (j: Json)
    ensures j.JObject? && j.fields.Keys == EmittedKeys(s)
  {
    JObject(SegmentMembers(s))
  }

  // ---------------------------------------------------------------------------
  // Deserialization

  const SEGMENT_FIELDS: seq<string> := [
    "trace_id", "id", "name", "start_time", "end_time", "in_progress", "parent_id",
    "fault", "error", "throttle", "cause", "origin", "user", "resource_arn",
    "annotations", "metadata", "aws", "service"]

  /** Reads every field except the four flags, which are left `false`. */
  function SegmentOfMembers(m: Members): Result<Segment, string>
  {
    var trace_id :- ReadReq(Get(m, "trace_id"), "trace_id", DeserializeTraceId);
    var id :- ReadReq(Get(m, "id"), "id", DeserializeSegmentId);
    var name :- ReadReq(Get(m, "name"), "name", DecodeString);
    var start_time :- ReadReq(Get(m, "start_time"), "start_time", DecodeSeconds);
    var end_time :- ReadOpt(Get(m, "end_time"), DecodeSeconds);
    var parent_id :- ReadOpt(Get(m, "parent_id"), DeserializeSegmentId);
    var s := Segment(trace_id, id, name, start_time, end_time, false, parent_id, false, false, false,
                     None, None, None, None, None, None, None, None);
    WithDetails(m, s)
  }

  function WithDetails(m: Members, s: Segment): Result<Segment, string>
  {
    var cause :- ReadOpt(Get(m, "cause"), DecodeCause);
    var origin :- ReadOpt(Get(m, "origin"), DecodeString);
    var user :- ReadOpt(Get(m, "user"), DecodeString);
    var resource_arn :- ReadOpt(Get(m, "resource_arn"), DecodeString);
    WithContext(m, s.(cause := cause, origin := origin, user := user, resource_arn := resource_arn))
  }

  function WithContext(m: Members, s: Segment): Result<Segment, string>
  {
    var annotations :- ReadOpt(Get(m, "annotations"), DecodeAnnotations);
    var metadata :- ReadOpt(Get(m, "metadata"), DecodeMetadata);
    var aws :- ReadOpt(Get(m, "aws"), DecodeAws);
    var service :- ReadOpt(Get(m, "service"), DecodeService);
    Success(s.(annotations := annotations, metadata := metadata, aws := aws, service := service))
  }

  /**
    The flags as the derived deserializer reads them: the fields have no
    default, so a skipped `false` flag is a `missing field` error.
   */
  function WithRequiredFlags(m: Members, s: Segment): (r: Result<Segment, string>)
    ensures r.Success? <==> Present(m, "in_progress", DecodeBool) && Present(m, "fault", DecodeBool)
                            && Present(m, "error", DecodeBool) && Present(m, "throttle", DecodeBool)
    ensures "in_progress" !in m ==> r == Failure(MissingField("in_progress"))
    ensures r.Success? ==> r.value.in_progress == m["in_progress"].b && r.value.fault == m["fault"].b
                           && r.value.error == m["error"].b && r.value.throttle == m["throttle"].b
    ensures r.Success? ==> r.value.(in_progress := s.in_progress, fault := s.fault, error := s.error, throttle := s.throttle) == s
  {
    var in_progress :- ReadReq(Get(m, "in_progress"), "in_progress", DecodeBool);
    var fault :- ReadReq(Get(m, "fault"), "fault", DecodeBool);
    var error :- ReadReq(Get(m, "error"), "error", DecodeBool);
    var throttle :- ReadReq(Get(m, "throttle"), "throttle", DecodeBool);
    Success(s.(in_progress := in_progress, fault := fault, error := error, throttle := throttle))
  }

  /** A flag with `#[serde(default)]` reads when it is absent or a boolean. */
  predicate FlagReadable(m: Members, key: string)
  {
    key in m ==> m[key].JBool?
  }

  /** The flags read with `#[serde(default)]`: a skipped flag is `false`. */
  function WithDefaultedFlags(m: Members, s: Segment): (r: Result<Segment, string>)
    ensures r.Success? <==> FlagReadable(m, "in_progress") && FlagReadable(m, "fault")
                            && FlagReadable(m, "error") && FlagReadable(m, "throttle")
    ensures r.Success? ==> (r.value.in_progress <==> Get(m, "in_progress") == Some(JBool(true)))
    ensures r.Success? ==> (r.value.fault <==> Get(m, "fault") == Some(JBool(true)))
    ensures r.Success? ==> (r.value.error <==> Get(m, "error") == Some(JBool(true)))
    ensures r.Success? ==> (r.value.throttle <==> Get(m, "throttle") == Some(JBool(true)))
    ensures r.Success? ==> r.value.(in_progress := s.in_progress, fault := s.fault, error := s.error, throttle := s.throttle) == s
  {
    var in_progress :- ReadOr(Get(m, "in_progress"), DecodeBool, false);
    var fault :- ReadOr(Get(m, "fault"), DecodeBool, false);
    var error :- ReadOr(Get(m, "error"), DecodeBool, false);
    var throttle :- ReadOr(Get(m, "throttle"), DecodeBool, false);
    Success(s.(in_progress := in_progress, fault := fault, error := error, throttle := throttle))
  }

  /**
    The derived deserializer as the crate declares it. An object whose
    other fields read but which leaves out `in_progress` (as every finished
    segment's document does) is rejected with `missing field`.
   */
  function DecodeSegmentAsWritten(j: Json): (r: Result<Segment, string>)
    ensures !j.JObject? && !j.JArray? ==> r.Failure?
    ensures j.JObject? && "trace_id" !in j.fields ==> r == Failure(MissingField("trace_id"))
    ensures j.JObject? && "in_progress" !in j.fields ==> r.Failure?
    ensures (j.JObject? && "in_progress" !in j.fields && SegmentOfMembers(j.fields).Success?)
              ==> r == Failure(MissingField("in_progress"))
  {
    var m :- StructMembers(j, SEGMENT_FIELDS, "struct Segment");
    var s :- SegmentOfMembers(m);
    WithRequiredFlags(m, s)
  }

  /**
    The deserializer with the flags defaulting to `false`, as the skip rules
    need: a flag reads `true` exactly when the document holds `true` for it.
   */
  function DecodeSegment(j: Json): (r: Result<Segment, string>)
    ensures !j.JObject? && !j.JArray? ==> r.Failure?
    ensures j.JObject? && "trace_id" !in j.fields ==> r == Failure(MissingField("trace_id"))
    ensures j.JObject? ==> (r.Success? <==> SegmentOfMembers(j.fields).Success?
                                            && FlagReadable(j.fields, "in_progress") && FlagReadable(j.fields, "fault")
                                            && FlagReadable(j.fields, "error") && FlagReadable(j.fields, "throttle"))
    ensures j.JObject? && r.Success? ==> (r.value.in_progress <==> Get(j.fields, "in_progress") == Some(JBool(true)))
    ensures j.JObject? && r.Success? ==> (r.value.fault <==> Get(j.fields, "fault") == Some(JBool(true)))
    ensures j.JObject? && r.Success? ==> (r.value.error <==> Get(j.fields, "error") == Some(JBool(true)))
    ensures j.JObject? && r.Success? ==> (r.value.throttle <==> Get(j.fields, "throttle") == Some(JBool(true)))
  {
    var m :- StructMembers(j, SEGMENT_FIELDS, "struct Segment");
    var s :- SegmentOfMembers(m);
    WithDefaultedFlags(m, s)
  }

  // ---------------------------------------------------------------------------
  // Reading a document back

  /** What reading a segment's document gives back: each id as the text it displayed. */
  function Received(s: Segment): (r: Segment)
    ensures r.trace_id.Rendered? && r.trace_id.Display() == s.trace_id.Display()
    ensures r.id.Rendered? && r.id.Display() == s.id.Display()
    ensures r.parent_id.Some? <==> s.parent_id.Some?
    ensures r.parent_id.Some? ==> r.parent_id.value.Rendered? && r.parent_id.value.Display() == s.parent_id.value.Display()
    ensures r.(trace_id := s.trace_id, id := s.id, parent_id := s.parent_id) == s
  {
    s.(trace_id := TraceId.Rendered(s.trace_id.Display()),
       id := SegmentId.Rendered(s.id.Display()),
       parent_id := ReceivedParent(s.parent_id))
  }

  function ReceivedParent(p: Option<SegmentId>): Option<SegmentId>
  {
    if p.Some? then Some(SegmentId.Rendered(p.value.Display())) else None
  }

  const STATE_NAMES: set<string> := {"end_time", "in_progress", "parent_id", "fault", "error", "throttle"}
  const DETAIL_NAMES: set<string> := {"cause", "origin", "user", "resource_arn"}
  const CONTEXT_NAMES: set<string> := {"annotations", "metadata", "aws", "service"}

  /** The four groups of fields have no name in common. */
  lemma GroupsDisjoint()
    ensures IDENTITY_KEYS !! STATE_NAMES && IDENTITY_KEYS !! DETAIL_NAMES && IDENTITY_KEYS !! CONTEXT_NAMES
    ensures STATE_NAMES !! DETAIL_NAMES && STATE_NAMES !! CONTEXT_NAMES && DETAIL_NAMES !! CONTEXT_NAMES
  {
  }

  lemma GroupKeys(s: Segment)
    ensures StateKeys(s) <= STATE_NAMES && DetailKeys(s) <= DETAIL_NAMES && ContextKeys(s) <= CONTEXT_NAMES
  {
  }

  /** A member of one group is read from that group's members alone. */
  lemma GetIdentity(s: Segment, k: string)
    requires k in IDENTITY_KEYS
    ensures Get(SegmentMembers(s), k) == Get(IdentityMembers(s), k)
  {
    assert k !in STATE_NAMES by { GroupsDisjoint(); }
    assert k !in DETAIL_NAMES by { GroupsDisjoint(); }
    assert k !in CONTEXT_NAMES by { GroupsDisjoint(); }
    GroupKeys(s);
  }

  lemma GetState(s: Segment, k: string)
    requires k in STATE_NAMES
    ensures Get(SegmentMembers(s), k) == Get(StateMembers(s), k)
  {
    assert k !in IDENTITY_KEYS by { GroupsDisjoint(); }
    assert k !in DETAIL_NAMES by { GroupsDisjoint(); }
    assert k !in CONTEXT_NAMES by { GroupsDisjoint(); }
    GroupKeys(s);
  }

  lemma GetDetail(s: Segment, k: string)
    requires k in DETAIL_NAMES
    ensures Get(SegmentMembers(s), k) == Get(DetailMembers(s), k)
  {
    assert k !in IDENTITY_KEYS by { GroupsDisjoint(); }
    assert k !in STATE_NAMES by { GroupsDisjoint(); }
    assert k !in CONTEXT_NAMES by { GroupsDisjoint(); }
    GroupKeys(s);
  }

  lemma GetContext(s: Segment, k: string)
    requires k in CONTEXT_NAMES
    ensures Get(SegmentMembers(s), k) == Get(ContextMembers(s), k)
  {
    assert k !in IDENTITY_KEYS by { GroupsDisjoint(); }
    assert k !in STATE_NAMES by { GroupsDisjoint(); }
    assert k !in DETAIL_NAMES by { GroupsDisjoint(); }
    GroupKeys(s);
  }

  lemma StateGets(s: Segment)
    ensures Get(StateMembers(s), "end_time") == Emitted(s.end_time, EncodeSeconds)
    ensures Get(StateMembers(s), "in_progress") == Flag(s.in_progress)
    ensures Get(StateMembers(s), "parent_id") == Emitted(s.parent_id, SerializeSegmentId)
    ensures Get(StateMembers(s), "fault") == Flag(s.fault)
    ensures Get(StateMembers(s), "error") == Flag(s.error)
    ensures Get(StateMembers(s), "throttle") == Flag(s.throttle)
  {
  }

  lemma DetailGets(s: Segment)
    ensures Get(DetailMembers(s), "cause") == Emitted(s.cause, EncodeCause)
    ensures Get(DetailMembers(s), "origin") == Emitted(s.origin, EncodeString)
    ensures Get(DetailMembers(s), "user") == Emitted(s.user, EncodeString)
    ensures Get(DetailMembers(s), "resource_arn") == Emitted(s.resource_arn, EncodeString)
  {
  }

  lemma ContextGets(s: Segment)
    ensures Get(ContextMembers(s), "annotations") == Emitted(s.annotations, EncodeAnnotations)
    ensures Get(ContextMembers(s), "metadata") == Emitted(s.metadata, EncodeMetadata)
    ensures Get(ContextMembers(s), "aws") == Emitted(s.aws, EncodeAws)
    ensures Get(ContextMembers(s), "service") == Emitted(s.service, EncodeService)
  {
  }

  /** The received segment with its flags cleared and its details and context not yet read. */
  function Identity(s: Segment): Segment
  {
    Segment(TraceId.Rendered(s.trace_id.Display()), SegmentId.Rendered(s.id.Display()), s.name, s.start_time,
            s.end_time, false, ReceivedParent(s.parent_id), false, false, false,
            None, None, None, None, None, None, None, None)
  }

  lemma ReadIdentity(s: Segment, m: Members)
    requires Get(m, "trace_id") == Some(SerializeTraceId(s.trace_id))
    requires Get(m, "id") == Some(SerializeSegmentId(s.id))
    requires Get(m, "name") == Some(JString(s.name))
    requires Get(m, "start_time") == Some(EncodeSeconds(s.start_time))
    requires Get(m, "end_time") == Emitted(s.end_time, EncodeSeconds)
    requires Get(m, "parent_id") == Emitted(s.parent_id, SerializeSegmentId)
    ensures SegmentOfMembers(m) == WithDetails(m, Identity(s))
  {
    assert ReadOpt(Get(m, "end_time"), DecodeSeconds) == Success(s.end_time);
    assert ReadOpt(Get(m, "parent_id"), DeserializeSegmentId) == Success(ReceivedParent(s.parent_id));
  }

  lemma ReadDetails(s: Segment, t: Segment, m: Members)
    requires Get(m, "cause") == Emitted(s.cause, EncodeCause)
    requires Get(m, "origin") == Emitted(s.origin, EncodeString)
    requires Get(m, "user") == Emitted(s.user, EncodeString)
    requires Get(m, "resource_arn") == Emitted(s.resource_arn, EncodeString)
    ensures WithDetails(m, t) == WithContext(m, t.(cause := s.cause, origin := s.origin, user := s.user, resource_arn := s.resource_arn))
  {
    if s.cause.Some? { CauseRoundTrip(s.cause.value); }
    ReadOptEmitted(s.cause, EncodeCause, DecodeCause);
    ReadOptEmitted(s.origin, EncodeString, DecodeString);
    ReadOptEmitted(s.user, EncodeString, DecodeString);
    ReadOptEmitted(s.resource_arn, EncodeString, DecodeString);
  }

  lemma AnnotationsRoundTrip(a: map<string, Annotation>)
    ensures DecodeAnnotations(EncodeAnnotations(a)) == Success(a)
  {
    forall k | k in a ensures DecodeAnnotation(EncodeAnnotation(a[k])) == Success(a[k]) {
      AnnotationRoundTrip(a[k], JNull);
    }
    DecodeEncodeMap(a, EncodeAnnotation, DecodeAnnotation);
  }

  lemma ReadContext(s: Segment, t: Segment, m: Members)
    requires Get(m, "annotations") == Emitted(s.annotations, EncodeAnnotations)
    requires Get(m, "metadata") == Emitted(s.metadata, EncodeMetadata)
    requires Get(m, "aws") == Emitted(s.aws, EncodeAws)
    requires Get(m, "service") == Emitted(s.service, EncodeService)
    ensures WithContext(m, t) == Success(t.(annotations := s.annotations, metadata := s.metadata, aws := s.aws, service := s.service))
  {
    if s.annotations.Some? { AnnotationsRoundTrip(s.annotations.value); }
    if s.aws.Some? { AwsRoundTrip(s.aws.value); }
    if s.service.Some? { ServiceRoundTrip(s.service.value); }
    ReadOptEmitted(s.annotations, EncodeAnnotations, DecodeAnnotations);
    ReadOptEmitted(s.metadata, EncodeMetadata, DecodeMetadata);
    ReadOptEmitted(s.aws, EncodeAws, DecodeAws);
    ReadOptEmitted(s.service, EncodeService, DecodeService);
  }

  lemma ReadFlags(s: Segment, t: Segment, m: Members)
    requires Get(m, "in_progress") == Flag(s.in_progress)
    requires Get(m, "fault") == Flag(s.fault)
    requires Get(m, "error") == Flag(s.error)
    requires Get(m, "throttle") == Flag(s.throttle)
    ensures WithDefaultedFlags(m, t)
         == Success(t.(in_progress := s.in_progress, fault := s.fault, error := s.error, throttle := s.throttle))
    ensures WithRequiredFlags(m, t)
         == if !s.in_progress then Failure(MissingField("in_progress"))
            else if !s.fault then Failure(MissingField("fault"))
            else if !s.error then Failure(MissingField("error"))
            else if !s.throttle then Failure(MissingField("throttle"))
            else Success(t.(in_progress := true, fault := true, error := true, throttle := true))
  {
    ReadFlag(s.in_progress, "in_progress");
    ReadFlag(s.fault, "fault");
    ReadFlag(s.error, "error");
    ReadFlag(s.throttle, "throttle");
  }

  /** The members of a segment's document, group by group. */
  lemma IdentityRead(s: Segment)
    ensures Get(SegmentMembers(s), "trace_id") == Some(SerializeTraceId(s.trace_id))
    ensures Get(SegmentMembers(s), "id") == Some(SerializeSegmentId(s.id))
    ensures Get(SegmentMembers(s), "name") == Some(JString(s.name))
    ensures Get(SegmentMembers(s), "start_time") == Some(EncodeSeconds(s.start_time))
  {
    GetIdentity(s, "trace_id");
    GetIdentity(s, "id");
    GetIdentity(s, "name");
    GetIdentity(s, "start_time");
    IdentityGets(s);
  }

  lemma StateRead(s: Segment)
    ensures Get(SegmentMembers(s), "end_time") == Emitted(s.end_time, EncodeSeconds)
    ensures Get(SegmentMembers(s), "parent_id") == Emitted(s.parent_id, SerializeSegmentId)
    ensures Get(SegmentMembers(s), "in_progress") == Flag(s.in_progress)
    ensures Get(SegmentMembers(s), "fault") == Flag(s.fault)
    ensures Get(SegmentMembers(s), "error") == Flag(s.error)
    ensures Get(SegmentMembers(s), "throttle") == Flag(s.throttle)
  {
    GetState(s, "end_time");
    GetState(s, "parent_id");
    GetState(s, "in_progress");
    GetState(s, "fault");
    GetState(s, "error");
    GetState(s, "throttle");
    StateGets(s);
  }

  lemma DetailRead(s: Segment)
    ensures Get(SegmentMembers(s), "cause") == Emitted(s.cause, EncodeCause)
    ensures Get(SegmentMembers(s), "origin") == Emitted(s.origin, EncodeString)
    ensures Get(SegmentMembers(s), "user") == Emitted(s.user, EncodeString)
    ensures Get(SegmentMembers(s), "resource_arn") == Emitted(s.resource_arn, EncodeString)
  {
    GetDetail(s, "cause");
    GetDetail(s, "origin");
    GetDetail(s, "user");
    GetDetail(s, "resource_arn");
    DetailGets(s);
  }

  lemma ContextRead(s: Segment)
    ensures Get(SegmentMembers(s), "annotations") == Emitted(s.annotations, EncodeAnnotations)
    ensures Get(SegmentMembers(s), "metadata") == Emitted(s.metadata, EncodeMetadata)
    ensures Get(SegmentMembers(s), "aws") == Emitted(s.aws, EncodeAws)
    ensures Get(SegmentMembers(s), "service") == Emitted(s.service, EncodeService)
  {
    GetContext(s, "annotations");
    GetContext(s, "metadata");
    GetContext(s, "aws");
    GetContext(s, "service");
    ContextGets(s);
  }

  /** Both decoders read a segment's document up to the flags alike. */
  lemma ReadAllButFlags(s: Segment)
    ensures SegmentOfMembers(SegmentMembers(s)) == Success(Unflagged(Received(s)))
  {
    var m := SegmentMembers(s);
    var t0 := Identity(s);
    var t1 := t0.(cause := s.cause, origin := s.origin, user := s.user, resource_arn := s.resource_arn);
    IdentityRead(s);
    StateRead(s);
    DetailRead(s);
    ContextRead(s);
    ReadIdentity(s, m);
    ReadDetails(s, t0, m);
    ReadContext(s, t1, m);
  }

  /** The segment with its four flags off. */
  function Unflagged(s: Segment): Segment
  {
    s.(in_progress := false, fault := false, error := false, throttle := false)
  }

  /** Both decoders are the shared reading followed by their own reading of the flags. */
  lemma DecodeSteps(s: Segment)
    ensures DecodeSegment(EncodeSegment(s)) == WithDefaultedFlags(SegmentMembers(s), Unflagged(Received(s)))
    ensures DecodeSegmentAsWritten(EncodeSegment(s)) == WithRequiredFlags(SegmentMembers(s), Unflagged(Received(s)))
  {
    ReadAllButFlags(s);
  }

  /** Every segment reads back from its document, ids as the text they displayed. */
  lemma SegmentRoundTrip(s: Segment)
    ensures DecodeSegment(EncodeSegment(s)) == Success(Received(s))
  {
    DecodeSteps(s);
    StateRead(s);
    ReadFlags(s, Unflagged(Received(s)), SegmentMembers(s));
  }

  /**
    The crate's own decoder rejects the document of every segment that has a
    flag off: the skipped `false` flag comes back as a missing field.
   */
  lemma AsWrittenRoundTrip(s: Segment)
    ensures DecodeSegmentAsWritten(EncodeSegment(s)).Success? <==> s.in_progress && s.fault && s.error && s.throttle
    ensures !s.in_progress ==> DecodeSegmentAsWritten(EncodeSegment(s)) == Failure(MissingField("in_progress"))
    ensures DecodeSegmentAsWritten(EncodeSegment(s)).Success? ==> DecodeSegmentAsWritten(EncodeSegment(s)) == Success(Received(s))
  {
    DecodeSteps(s);
    StateRead(s);
    ReadFlags(s, Unflagged(Received(s)), SegmentMembers(s));
  }

  /** A begun segment has every flag off, so the crate's decoder rejects its document. */
  lemma BegunDocument(name: string, traceClock: Seconds, traceRandom: Bytes12, idRandom: Bytes8, startClock: Seconds)
    requires |name| > MAX_NAME_LENGTH ==> !IsContinuation(name[MAX_NAME_LENGTH])
    ensures var s := Begin(name, traceClock, traceRandom, idRandom, startClock);
      && DecodeSegmentAsWritten(EncodeSegment(s)) == Failure(MissingField("in_progress"))
      && DecodeSegment(EncodeSegment(s)) == Success(Received(s))
  {
    var s := Begin(name, traceClock, traceRandom, idRandom, startClock);
    AsWrittenRoundTrip(s);
    SegmentRoundTrip(s);
  }

  /** Ending clears `in_progress`, so the crate's decoder rejects every ended segment's document. */
  lemma EndedDocument(s: Segment, now: Seconds)
    ensures DecodeSegmentAsWritten(EncodeSegment(End(s, now))) == Failure(MissingField("in_progress"))
    ensures DecodeSegment(EncodeSegment(End(s, now))) == Success(Received(End(s, now)))
  {
    AsWrittenRoundTrip(End(s, now));
    SegmentRoundTrip(End(s, now));
  }

  /** A segment that was read back reads back as itself. */
  lemma ReceivedStable(s: Segment)
    ensures Received(Received(s)) == Received(s)
    ensures DecodeSegment(EncodeSegment(Received(s))) == Success(Received(s))
  {
    SegmentRoundTrip(Received(s));
  }
}
