/**
  The error-describing parts of a segment: annotations, stack frames,
  exceptions and the cause, with their JSON encodings. `Annotation` and
  `Cause` are untagged unions: the decoder tries the variants in declaration
  order and reports one fixed message when none fits.
 */
module Causes {
  import opened Wrappers
  import opened Ints
  import opened Json
  import opened Fields

  // ---------------------------------------------------------------------------
  // Annotation

  /** A value that may be used for filter queries. */
  datatype Annotation = String(s: string) | Number(n: usize) | Bool(b: bool)

  /** `Annotation::default()`. */
  const DEFAULT_ANNOTATION: Annotation := String("")

  const ANNOTATION_MISMATCH: string := "data did not match any variant of untagged enum Annotation"

  /** Untagged: the inner value alone, with no variant name. */
  function EncodeAnnotation(a: Annotation): (j: Json)
    ensures j.JString? <==> a.String?
    ensures j.JInt? <==> a.Number?
    ensures j.JBool? <==> a.Bool?
  {
    match a
    case String(s) => JString(s)
    case Number(n) => JInt(n)
    case Bool(b) => JBool(b)
  }

  /**
    Tries `String`, then `Number` (an integer that fits `usize`), then `Bool`.
    Floats, negative or oversized integers, `null`, arrays and objects match
    no variant.
   */
  function DecodeAnnotation(j: Json): (r: Result<Annotation, string>)
    ensures r.Success? <==> j.JString? || (j.JInt? && 0 <= j.i < U64_LIMIT) || j.JBool?
    ensures r.Failure? ==> r.error == ANNOTATION_MISMATCH
    ensures j.JString? ==> r == Success(String(j.s))
    ensures j.JInt? && 0 <= j.i < U64_LIMIT ==> r == Success(Number(j.i))
    ensures j.JBool? ==> r == Success(Bool(j.b))
  {
    match DecodeString(j)
    case Success(s) => Success(String(s))
    case Failure(_) =>
      match DecodeU64(j)
      case Success(n) => Success(Number(n))
      case Failure(_) =>
        match DecodeBool(j)
        case Success(b) => Success(Bool(b))
        case Failure(_) => Failure(ANNOTATION_MISMATCH)
  }

  /** Every annotation decodes back from its encoding, and every accepted value re-encodes to itself. */
  lemma AnnotationRoundTrip(a: Annotation, j: Json)
    ensures DecodeAnnotation(EncodeAnnotation(a)) == Success(a)
    ensures DecodeAnnotation(j).Success? ==> EncodeAnnotation(DecodeAnnotation(j).value) == j
  {
  }

  // ---------------------------------------------------------------------------
  // Stack frame

  /** One frame of a recorded stack: where it was and what it was called. */
  datatype StackFrame = StackFrame(path: Option<string>, line: Option<string>, frame_label: Option<string>)

  const STACK_FRAME_FIELDS: seq<string> := ["path", "line", "label"]

  /** Every field is skipped when `None`. */
  function EncodeStackFrame(f: StackFrame): (j: Json)
    ensures j.JObject?
    ensures j.fields.Keys == KeyIf(f.path.Some?, "path") + KeyIf(f.line.Some?, "line") + KeyIf(f.frame_label.Some?, "label")
  {
    var m := PutOpt(map[], "path", f.path, EncodeString);
    var m := PutOpt(m, "line", f.line, EncodeString);
    var m := PutOpt(m, "label", f.frame_label, EncodeString);
    JObject(m)
  }

  function DecodeStackFrame(j: Json): (r: Result<StackFrame, string>)
    ensures !j.JObject? && !j.JArray? ==> r.Failure?
    ensures j.JObject? ==> (r.Success? <==>
      && Readable(j.fields, "path", DecodeString)
      && Readable(j.fields, "line", DecodeString)
      && Readable(j.fields, "label", DecodeString))
  {
    var m :- StructMembers(j, STACK_FRAME_FIELDS, "struct StackFrame");
    var path :- ReadOpt(Get(m, "path"), DecodeString);
    var line :- ReadOpt(Get(m, "line"), DecodeString);
    var frame_label :- ReadOpt(Get(m, "label"), DecodeString);
    Success(StackFrame(path, line, frame_label))
  }

  lemma StackFrameRoundTrip(f: StackFrame)
    ensures DecodeStackFrame(EncodeStackFrame(f)) == Success(f)
  {
    var m1 := PutOpt(map[], "path", f.path, EncodeString);
    var m2 := PutOpt(m1, "line", f.line, EncodeString);
    var m3 := PutOpt(m2, "label", f.frame_label, EncodeString);
    assert Get(m3, "path") == Get(m1, "path");
    assert Get(m3, "line") == Get(m2, "line");
  }

  /** Members that are not fields are ignored. */
  lemma StackFrameIgnoresUnknown(m: Members, k: string, v: Json)
    requires k !in STACK_FRAME_FIELDS
    ensures DecodeStackFrame(JObject(m[k := v])) == DecodeStackFrame(JObject(m))
  {
    assert Get(m[k := v], "path") == Get(m, "path");
    assert Get(m[k := v], "line") == Get(m, "line");
    assert Get(m[k := v], "label") == Get(m, "label");
  }

  function DecodeStackFrames(j: Json): Result<seq<StackFrame>, string>
  {
    DecodeSeq(j, DecodeStackFrame)
  }

  // ---------------------------------------------------------------------------
  // Exception

  /** One recorded exception, with its stack and the exception that caused it. */
  datatype Exception = Exception(
    id: string,
    messages: Option<string>,
    remote: Option<bool>,
    truncated: Option<usize>,
    skipped: Option<usize>,
    cause: Option<string>,
    stack: seq<StackFrame>)

  const EXCEPTION_FIELDS: seq<string> := ["id", "messages", "remote", "truncated", "skipped", "cause", "stack"]

  /** The keys of the optional members an exception emits. */
  function OptionalKeys(e: Exception): set<string>
  {
    KeyIf(e.messages.Some?, "messages") + KeyIf(e.remote.Some?, "remote")
      + KeyIf(e.truncated.Some?, "truncated") + KeyIf(e.skipped.Some?, "skipped")
      + KeyIf(e.cause.Some?, "cause")
  }

  /** The five optional members, each emitted only when `Some`. */
  function OptionalMembers(e: Exception): (m: Members)
    ensures m.Keys == OptionalKeys(e)
    ensures Get(m, "messages") == Emitted(e.messages, EncodeString)
    ensures Get(m, "remote") == Emitted(e.remote, EncodeBool)
    ensures Get(m, "truncated") == Emitted(e.truncated, EncodeU64)
    ensures Get(m, "skipped") == Emitted(e.skipped, EncodeU64)
    ensures Get(m, "cause") == Emitted(e.cause, EncodeString)
  {
    var m := PutOpt(map[], "messages", e.messages, EncodeString);
    var m := PutOpt(m, "remote", e.remote, EncodeBool);
    var m := PutOpt(m, "truncated", e.truncated, EncodeU64);
    var m := PutOpt(m, "skipped", e.skipped, EncodeU64);
    PutOpt(m, "cause", e.cause, EncodeString)
  }

  /** `id` and `stack` are always emitted; the optional fields only when `Some`. */
  function EncodeException(e: Exception): (j: Json)
    ensures j.JObject?
    ensures j.fields.Keys == {"id", "stack"} + OptionalKeys(e)
  {
    var m := Put(OptionalMembers(e), "id", JString(e.id));
    JObject(Put(m, "stack", EncodeSeq(e.stack, EncodeStackFrame)))
  }

  /** `id` and `stack` are required; a missing one is the `missing field` error. */
  function DecodeException(j: Json): (r: Result<Exception, string>)
    ensures !j.JObject? && !j.JArray? ==> r.Failure?
    ensures j.JObject? && ("id" !in j.fields || "stack" !in j.fields) ==> r.Failure?
    ensures j.JObject? && "id" !in j.fields ==> r == Failure(MissingField("id"))
    ensures j.JObject? ==> (r.Success? <==>
      Present(j.fields, "id", DecodeString) && Present(j.fields, "stack", DecodeStackFrames) && OptionalsReadable(j.fields))
  {
    var m :- StructMembers(j, EXCEPTION_FIELDS, "struct Exception");
    var id :- ReadReq(Get(m, "id"), "id", DecodeString);
    var stack :- ReadReq(Get(m, "stack"), "stack", DecodeStackFrames);
    WithOptionals(m, id, stack)
  }

  /** Every optional field of an exception object reads. */
  predicate OptionalsReadable(m: Members)
  {
    && Readable(m, "messages", DecodeString)
    && Readable(m, "remote", DecodeBool)
    && Readable(m, "truncated", DecodeU64)
    && Readable(m, "skipped", DecodeU64)
    && Readable(m, "cause", DecodeString)
  }

  /** Reads the five optional fields around the two required ones. */
  function WithOptionals(m: Members, id: string, stack: seq<StackFrame>): (r: Result<Exception, string>)
    ensures r.Success? <==> OptionalsReadable(m)
    ensures r.Success? ==> r.value.id == id && r.value.stack == stack
  {
    var messages :- ReadOpt(Get(m, "messages"), DecodeString);
    var remote :- ReadOpt(Get(m, "remote"), DecodeBool);
    var truncated :- ReadOpt(Get(m, "truncated"), DecodeU64);
    var skipped :- ReadOpt(Get(m, "skipped"), DecodeU64);
    var cause :- ReadOpt(Get(m, "cause"), DecodeString);
    Success(Exception(id, messages, remote, truncated, skipped, cause, stack))
  }

  /** Members that agree with the emitted optional members read back as the exception's options. */
  lemma ReadOptionalMembers(e: Exception, m: Members)
    requires Get(m, "messages") == Emitted(e.messages, EncodeString)
    requires Get(m, "remote") == Emitted(e.remote, EncodeBool)
    requires Get(m, "truncated") == Emitted(e.truncated, EncodeU64)
    requires Get(m, "skipped") == Emitted(e.skipped, EncodeU64)
    requires Get(m, "cause") == Emitted(e.cause, EncodeString)
    ensures WithOptionals(m, e.id, e.stack) == Success(e)
  {
    ReadOptEmitted(e.messages, EncodeString, DecodeString);
    ReadOptEmitted(e.remote, EncodeBool, DecodeBool);
    ReadOptEmitted(e.truncated, EncodeU64, DecodeU64);
    ReadOptEmitted(e.skipped, EncodeU64, DecodeU64);
    ReadOptEmitted(e.cause, EncodeString, DecodeString);
  }

  lemma StackRoundTrip(stack: seq<StackFrame>)
    ensures DecodeStackFrames(EncodeSeq(stack, EncodeStackFrame)) == Success(stack)
  {
    forall i | 0 <= i < |stack| ensures DecodeStackFrame(EncodeStackFrame(stack[i])) == Success(stack[i]) {
      StackFrameRoundTrip(stack[i]);
    }
    DecodeEncodeSeq(stack, EncodeStackFrame, DecodeStackFrame);
  }

  lemma ExceptionRoundTrip(e: Exception)
    ensures DecodeException(EncodeException(e)) == Success(e)
  {
    StackRoundTrip(e.stack);
    var m0 := OptionalMembers(e);
    var m1 := Put(m0, "id", JString(e.id));
    var m2 := Put(m1, "stack", EncodeSeq(e.stack, EncodeStackFrame));
    ReadOptionalMembers(e, m2);
  }

  /** Members that are not fields are ignored. */
  lemma ExceptionIgnoresUnknown(m: Members, k: string, v: Json)
    requires k !in EXCEPTION_FIELDS
    ensures DecodeException(JObject(m[k := v])) == DecodeException(JObject(m))
  {
    var m' := m[k := v];
    assert Get(m', "id") == Get(m, "id");
    assert Get(m', "stack") == Get(m, "stack");
    forall id, stack ensures WithOptionals(m', id, stack) == WithOptionals(m, id, stack) {
      OptionalsAgree(m', m, id, stack);
    }
  }

  /** Only the optional members are read by `WithOptionals`. */
  lemma OptionalsAgree(m1: Members, m2: Members, id: string, stack: seq<StackFrame>)
    requires Get(m1, "messages") == Get(m2, "messages")
    requires Get(m1, "remote") == Get(m2, "remote")
    requires Get(m1, "truncated") == Get(m2, "truncated")
    requires Get(m1, "skipped") == Get(m2, "skipped")
    requires Get(m1, "cause") == Get(m2, "cause")
    ensures WithOptionals(m1, id, stack) == WithOptionals(m2, id, stack)
  {
  }

  function DecodeExceptions(j: Json): Result<seq<Exception>, string>
  {
    DecodeSeq(j, DecodeException)
  }

  // ---------------------------------------------------------------------------
  // Cause

  /** The cause of an error: an exception id, or a full description. */
  datatype Cause =
    | Name(name: string)
    | Description(working_directory: string, paths: seq<string>, exceptions: seq<Exception>)

  const CAUSE_MISMATCH: string := "data did not match any variant of untagged enum Cause"

  /** Untagged: a bare string, or the description's three fields, all emitted. */
  function EncodeCause(c: Cause): (j: Json)
    ensures c.Name? <==> j.JString?
    ensures c.Description? ==> j.JObject? && j.fields.Keys == {"working_directory", "paths", "exceptions"}
  {
    match c
    case Name(s) => JString(s)
    case Description(wd, paths, exceptions) =>
      var m := Put(map[], "working_directory", JString(wd));
      var m := Put(m, "paths", EncodeSeq(paths, EncodeString));
      var m := Put(m, "exceptions", EncodeSeq(exceptions, EncodeException));
      JObject(m)
  }

  function DecodePaths(j: Json): Result<seq<string>, string>
  {
    DecodeSeq(j, DecodeString)
  }

  /**
    The struct variant of an untagged union: it reads from an object only,
    never from an array, and all three fields are required.
   */
  function DecodeDescription(j: Json): (r: Result<Cause, string>)
    ensures r.Success? ==> r.value.Description?
    ensures !j.JObject? ==> r.Failure?
    ensures j.JObject? ==> (r.Success? <==>
      && Present(j.fields, "working_directory", DecodeString)
      && Present(j.fields, "paths", DecodePaths)
      && Present(j.fields, "exceptions", DecodeExceptions))
  {
    var m :- if j.JObject? then Success(j.fields) else Failure("invalid type: expected struct variant Cause::Description");
    var wd :- ReadReq(Get(m, "working_directory"), "working_directory", DecodeString);
    var paths :- ReadReq(Get(m, "paths"), "paths", DecodePaths);
    var exceptions :- ReadReq(Get(m, "exceptions"), "exceptions", DecodeExceptions);
    Success(Description(wd, paths, exceptions))
  }

  /**
    Tries `Name` (any string) before `Description`; the description's own
    error is replaced by the one untagged-union message.
   */
  function DecodeCause(j: Json): (r: Result<Cause, string>)
    ensures j.JString? ==> r == Success(Name(j.s))
    ensures !j.JString? ==> (r.Success? <==> DecodeDescription(j).Success?)
    ensures !j.JString? && !j.JObject? ==> r == Failure(CAUSE_MISMATCH)
    ensures r.Failure? ==> r.error == CAUSE_MISMATCH
    ensures r.Success? ==> (r.value.Name? <==> j.JString?)
  {
    match DecodeString(j)
    case Success(s) => Success(Name(s))
    case Failure(_) =>
      match DecodeDescription(j)
      case Success(c) => Success(c)
      case Failure(_) => Failure(CAUSE_MISMATCH)
  }

  /** An array never reads as a cause, not even one with an item per description field. */
  lemma CauseNotFromArray()
    ensures DecodeCause(JArray([JString("w"), JArray([]), JArray([])])) == Failure(CAUSE_MISMATCH)
  {
  }

  lemma ExceptionsRoundTrip(exceptions: seq<Exception>)
    ensures DecodeExceptions(EncodeSeq(exceptions, EncodeException)) == Success(exceptions)
  {
    forall i | 0 <= i < |exceptions| ensures DecodeException(EncodeException(exceptions[i])) == Success(exceptions[i]) {
      ExceptionRoundTrip(exceptions[i]);
    }
    DecodeEncodeSeq(exceptions, EncodeException, DecodeException);
  }

  /** Every cause decodes back from its encoding, with paths and exceptions in their order. */
  lemma CauseRoundTrip(c: Cause)
    ensures DecodeCause(EncodeCause(c)) == Success(c)
  {
    if c.Description? {
      ExceptionsRoundTrip(c.exceptions);
      DecodeEncodeSeq(c.paths, EncodeString, DecodeString);
      var wd := JString(c.working_directory);
      var m1 := Put(map[], "working_directory", wd);
      var m2 := Put(m1, "paths", EncodeSeq(c.paths, EncodeString));
      var m3 := Put(m2, "exceptions", EncodeSeq(c.exceptions, EncodeException));
      assert Get(m3, "working_directory") == Some(wd);
      assert Get(m3, "paths") == Some(EncodeSeq(c.paths, EncodeString));
    }
  }
}
