/**
  Segment and trace identifiers. Each has two provenances: `New`, generated
  locally from random bytes (and, for a trace, the clock), and `Rendered`, an
  opaque text received from outside. Both go through one display function, the
  serializer emits that text, and the deserializer always yields `Rendered`.
 */
module Ids {
  import opened Wrappers
  import opened Ints
  import opened Hex
  import opened Time
  import opened Json
  import opened Text

  type Bytes8 = s: seq<byte> | |s| == 8 witness [0, 0, 0, 0, 0, 0, 0, 0]
  type Bytes12 = s: seq<byte> | |s| == 12 witness [0, 0, 0, 0, 0, 0, 0, 0, 0, 0, 0, 0]

  /** `^[0-9a-f]{16}$` */
  predicate IsCanonicalSegmentText(t: string)
  {
    |t| == 16 && IsLowerHex(t)
  }

  /** `^1-[0-9a-f]{8}-[0-9a-f]{24}$` */
  predicate IsCanonicalTraceText(t: string)
  {
    && |t| == 35
    && t[0] == '1' && t[1] == '-' && t[10] == '-'
    && IsLowerHex(t[2..10]) && IsLowerHex(t[11..])
  }

  /** Names one segment or subsegment; its trace id says which request it belongs to. */
  datatype SegmentId = New(bytes: Bytes8) | Rendered(text: string) {

    /** The id's text: lower-hex of the bytes, or the received text verbatim. */
    function Display(): (r: string)
      ensures New? ==> IsCanonicalSegmentText(r) && ParseLowerHex(r) == Some(bytes)
      ensures Rendered? ==> r == text
    {
      match this
      case New(b) =>
        ParseLowerHexOfLowerHex(b);
        LowerHex(b)
      case Rendered(t) => t
    }
  }

  /** Identifier shared by all segments of one request. */
  datatype TraceId = New(seconds: u64, bytes: Bytes12) | Rendered(text: string) {

    /**
      The id's text: `1-`, the seconds as `{:08x}`, `-`, lower-hex of the bytes;
      or the received text verbatim. Because `{:08x}` is a minimum width, the
      generated form has the canonical 35-character shape only while the
      seconds stay below 2^32.
     */
    function Display(): (r: string)
      ensures New? ==> ParseTraceText(r) == Some((seconds, bytes))
      ensures New? ==> (IsCanonicalTraceText(r) <==> seconds < U32_LIMIT)
      ensures New? && seconds >= U32_LIMIT ==> |r| > 35 && r[2] != '0'
      ensures Rendered? ==> r == text
    {
      match this
      case New(s, b) =>
        var r := "1-" + PadHex(s, 8) + "-" + LowerHex(b);
        GeneratedTraceText(s, b);
        PadHex8Length(s);
        assert r[2] == PadHex(s, 8)[0];
        r
      case Rendered(t) => t
    }
  }

  /** Reads the generated trace-id form back into its seconds and bytes. */
  function ParseTraceText(t: string): Option<(u64, Bytes12)>
  {
    if !StartsWith(t, "1-") then None
    else
      var rest := t[2..];
      match Find(rest, '-')
      case None => None
      case Some(i) => ParseTraceFields(rest[..i], rest[i + 1..])
  }

  /** The seconds digits and the byte digits of a trace-id text, decoded. */
  function ParseTraceFields(digits: string, tail: string): Option<(u64, Bytes12)>
  {
    if |digits| == 0 || !IsLowerHex(digits) || HexValue(digits) >= U64_LIMIT then None
    else
      match ParseLowerHex(tail)
      case None => None
      case Some(bs) => if |bs| != 12 then None else Some((HexValue(digits), bs))
  }

  /** Hex digits never contain the hyphen that separates the trace-id fields. */
  lemma NoHyphenInHex(digits: string)
    requires IsLowerHex(digits)
    ensures '-' !in digits
  {
    forall i | 0 <= i < |digits| ensures digits[i] != '-' {
      assert IsHexChar(digits[i]);
    }
  }

  lemma GeneratedTraceText(s: u64, b: Bytes12)
    ensures ParseTraceText("1-" + PadHex(s, 8) + "-" + LowerHex(b)) == Some((s, b))
    ensures IsCanonicalTraceText("1-" + PadHex(s, 8) + "-" + LowerHex(b)) <==> s < U32_LIMIT
  {
    GeneratedTraceTextParses(s, b);
    GeneratedTraceTextShape(s, b);
  }

  lemma GeneratedTraceTextParses(s: u64, b: Bytes12)
    ensures ParseTraceText("1-" + PadHex(s, 8) + "-" + LowerHex(b)) == Some((s, b))
  {
    PadHex8Length(s);
    ParseLowerHexOfLowerHex(b);
    TraceTextFields(PadHex(s, 8), LowerHex(b));
  }

  /** A trace-id text splits at the first hyphen after the version into its two fields. */
  lemma TraceTextFields(digits: string, hex: string)
    requires IsLowerHex(digits)
    ensures ParseTraceText("1-" + digits + "-" + hex) == ParseTraceFields(digits, hex)
  {
    var t := "1-" + digits + "-" + hex;
    var rest := t[2..];
    assert rest == digits + "-" + hex;
    assert rest[..|digits|] == digits;
    assert rest[|digits| + 1..] == hex;
    NoHyphenInHex(digits);
    assert rest[|digits|] == '-';
    assert forall i :: 0 <= i < |digits| ==> rest[i] == digits[i];
  }

  lemma GeneratedTraceTextShape(s: u64, b: Bytes12)
    ensures IsCanonicalTraceText("1-" + PadHex(s, 8) + "-" + LowerHex(b)) <==> s < U32_LIMIT
  {
    var digits := PadHex(s, 8);
    var t := "1-" + digits + "-" + LowerHex(b);
    PadHex8Length(s);
    if s < U32_LIMIT {
      assert t[2..10] == digits;
      assert t[11..] == LowerHex(b);
    } else {
      assert |t| > 35;
    }
  }

  /** `SegmentId::new`, with the random source's eight bytes passed in. */
  function NewSegmentId(random: Bytes8): (id: SegmentId)
    ensures id.New? && id.bytes == random
    ensures IsCanonicalSegmentText(id.Display())
  {
    SegmentId.New(random)
  }

  /** `TraceId::new`, with the clock reading and the twelve random bytes passed in. */
  function NewTraceId(now: Seconds, random: Bytes12): (id: TraceId)
    ensures id.New? && id.seconds == Trunc(now) && id.bytes == random
    ensures now.value < U32_LIMIT as real ==> IsCanonicalTraceText(id.Display())
  {
    TraceId.New(Trunc(now), random)
  }

  /** Deserializing a segment id accepts any JSON string and keeps it as received. */
  function DeserializeSegmentId(j: Json): (r: Result<SegmentId, string>)
    ensures r.Success? <==> j.JString?
    ensures r.Success? ==> r.value.Rendered? && r.value.Display() == j.s
  {
    match j
    case JString(s) => Success(SegmentId.Rendered(s))
    case _ => Failure("invalid type: expected a string value")
  }

  /** Serializing a segment id emits its display text as a JSON string. */
  function SerializeSegmentId(id: SegmentId): (j: Json)
    ensures DeserializeSegmentId(j) == Success(SegmentId.Rendered(id.Display()))
    ensures DeserializeSegmentId(j).value.Display() == id.Display()
  {
    JString(id.Display())
  }

  function DeserializeTraceId(j: Json): (r: Result<TraceId, string>)
    ensures r.Success? <==> j.JString?
    ensures r.Success? ==> r.value.Rendered? && r.value.Display() == j.s
  {
    match j
    case JString(s) => Success(TraceId.Rendered(s))
    case _ => Failure("invalid type: expected a string value")
  }

  function SerializeTraceId(id: TraceId): (j: Json)
    ensures DeserializeTraceId(j) == Success(TraceId.Rendered(id.Display()))
    ensures DeserializeTraceId(j).value.Display() == id.Display()
  {
    JString(id.Display())
  }

  /** A received id serializes back to exactly the JSON string it was read from. */
  lemma SerdeOnStrings(j: Json)
    requires j.JString?
    ensures SerializeSegmentId(DeserializeSegmentId(j).value) == j
    ensures SerializeTraceId(DeserializeTraceId(j).value) == j
  {
  }

  /** Generated ids with the same text were made from the same bytes and seconds. */
  lemma GeneratedTextInjective(a: TraceId, b: TraceId)
    requires a.New? && b.New? && a.Display() == b.Display()
    ensures a == b
  {
  }
}
