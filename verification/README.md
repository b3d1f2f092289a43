# tracing-xray trace context, modelled in Dafny

This project models the core of the AWS X-Ray support crate `tracing-xray`. It covers three pieces.

- **Identifiers.** `SegmentId` and `TraceId` each have two variants:
  - `New` holds random bytes, and for a trace id also the truncated clock;
  - `Rendered` holds an opaque text that was received.

  Both variants share one display function. Serialising an id emits that text, and deserialising any JSON string yields `Rendered`. The display of `New` ids uses the `Bytes` lower-hex helper.
- **The `X-Amzn-Trace-Id` header.** This covers the sampling-decision codec and the `Header` record with its builders. The parser is a left fold over the `;`-separated fields. The formatter is also modelled.
- **The segment document.** This covers the `Segment` record with `begin` and `end`. It also covers the serde rules that decide which keys the JSON document carries and how it is read back. That includes the untagged `Annotation` and `Cause` unions and the nested blocks: `Exception`, `StackFrame`, `Aws`, `Ecs`, `Ec2`, `ElasticBeanstalk`, `Tracing`, `XRay`, `Service`, `Http`, `Request` and `Response`.

## Conventions

- **No hidden inputs.** The clock and the random number generator are parameters. A `Seconds` value stands for each clock reading, and `Bytes8`/`Bytes12` stand for the random bytes.
- **Hash-map order.** The header formatter walks its hash map in an unspecified order, so that order is a parameter (`order`). It must enumerate every key exactly once.
- **JSON values.** JSON is a small value type (`Json.Json`), and each serde-derived type has an `Encode…` function and a `Decode…` function over it. The decoders follow the derived deserializers:
  - an `Option` field that is absent or `null` is `None`;
  - a required field that is absent gives ``missing field `k` ``;
  - unknown keys are ignored;
  - a plain struct may also be read from an array holding exactly as many items as it has fields, but the struct variant of an untagged enum (`Cause::Description`) reads from an object only.
- **Untagged unions.** `Annotation` and `Cause` try their variants in declaration order. If none fits, they fail with serde's `data did not match any variant of untagged enum …` text. The default annotation is `Causes.DEFAULT_ANNOTATION`, which is `String("")`.
- **Text as bytes.** Strings are `seq<char>`, and each `char` stands for one UTF-8 code unit. This is how Rust's `len()` and slicing count.

Code and documentation disagree in two places. The model follows the code.
- `Segment::begin` leaves `in_progress` at `false`, because `bool` defaults to `false`. The segment therefore does not start "in progress".
- `{:08x}` is a minimum width. A generated trace id is the canonical 35-character text only while its seconds are below 2^32 (`Ids.TraceId.Display`).

## Model

| member | source | states |
|---|---|---|
| Hex.LowerHex | src/types/types.rs:319-326 | each byte becomes two lower-case hex digits, in order; the text is twice as long as the bytes and uses only `[0-9a-f]` |
| Hex.ParseLowerHexOfLowerHex | src/types/types.rs:319-326 | the hex text of a byte sequence reads back as exactly those bytes |
| Hex.LowerHexOfParseLowerHex | src/types/types.rs:319-326 | every text that reads as hex bytes is the lower-hex rendering of what it reads as |
| Hex.LowerHexInjective | src/types/types.rs:319-326 | distinct byte sequences render to distinct texts |
| Hex.NatHex | src/types/ids.rs:100 | `{:x}` of a number: at least one lower-hex digit, denoting the number, with no leading zero unless the number is 0 |
| Hex.PadHex | src/types/ids.rs:100 | `{:0wx}`: the digits denote the number, and the text is `width` long unless the shortest form is longer, which is never cut |
| Hex.NatHexLength | src/types/ids.rs:100 | the shortest hex form fits in k digits exactly when the number is below 16^k |
| Hex.PadHex8Length | src/types/ids.rs:100 | `{:08x}` gives at least eight digits, and exactly eight if and only if the number is below 2^32 |
| Hex.LowerHexOfTest | src/types/types.rs:331-334 | the bytes of `"test"` render as `"74657374"` |
| Time.Trunc | src/types/time.rs:26-28 | `trunc() as u64` drops the fraction; a negative time gives 0 and a time past the u64 range saturates at its maximum |
| Time.DecodeSeconds | src/types/time.rs:50-64 | only a JSON float is accepted (an integer is rejected), and its value is kept |
| Time.SecondsRoundTrip | src/types/time.rs:66-83 | seconds serialise as a float that deserialises to the same value; no JSON integer deserialises |
| Ids.SegmentId.Display | src/types/ids.rs:24-30 | a `New` id displays as 16 lower-hex digits that read back as its 8 bytes; a `Rendered` id displays its text verbatim |
| Ids.TraceId.Display | src/types/ids.rs:97-104 | a `New` id displays as `1-`, the seconds as `{:08x}`, `-`, the hex of its 12 bytes, and that text reads back as the seconds and bytes; the text has the canonical 35-character shape if and only if the seconds are below 2^32, and otherwise it is longer, its seconds field starting with a non-zero digit; a `Rendered` id displays verbatim |
| Ids.GeneratedTextInjective | src/types/ids.rs:97-104 | two generated trace ids with the same text have the same seconds and bytes |
| Ids.NewSegmentId | src/types/ids.rs:17-21 | a new segment id is always `New`, holds the supplied random bytes, and displays canonically |
| Ids.NewTraceId | src/types/ids.rs:84-88 | a new trace id is `New(trunc(now), bytes)`; for every clock reading below 2^32, negative ones included (they truncate to 0), it displays canonically |
| Ids.DeserializeSegmentId | src/types/ids.rs:39-54 | exactly the JSON strings are accepted, each as `Rendered` of that very text |
| Ids.SerializeSegmentId | src/types/ids.rs:56-63 | the emitted string is the display text, and deserialising it gives `Rendered(display)`, which displays the same |
| Ids.DeserializeTraceId | src/types/ids.rs:106-120 | exactly the JSON strings are accepted, each as `Rendered` of that very text |
| Ids.SerializeTraceId | src/types/ids.rs:122-129 | the emitted string is the display text, and deserialising it gives `Rendered(display)`, which displays the same |
| Ids.SerdeOnStrings | src/types/ids.rs:48-62 | a received id serialises back to exactly the JSON string it came from |
| Headers.DecodeDecision | src/types/header.rs:27-36 | each of `Sampled=1`, `Sampled=0`, `Sampled=?` decodes to its decision, if and only if the text is exactly that; everything else is `Unknown` |
| Headers.EncodeDecision | src/types/header.rs:38-52 | decoding the encoding gives the decision back; the encoding is empty exactly for `Unknown` |
| Headers.EncodeOfDecode | src/types/header.rs:27-52 | a text that decodes to a known decision is that decision's encoding |
| Headers.DefaultHeader | src/types/header.rs:54-67 | the default header has a freshly generated trace id, no parent, an `Unknown` decision and no extension data |
| Headers.NewHeader | src/types/header.rs:75-80 | `Header::new` keeps the given trace id and defaults the rest |
| Headers.WithParentId | src/types/header.rs:82-85 | sets the parent and changes no other field |
| Headers.WithSamplingDecision | src/types/header.rs:87-90 | sets the decision and changes no other field |
| Headers.WithData | src/types/header.rs:92-99 | inserts or replaces one extension pair, keeps every other pair, and changes no other field |
| Headers.BuildersCommute | src/types/header.rs:82-99 | builders of different fields commute |
| Headers.WithDataOverwrites | src/types/header.rs:92-99 | a later value for the same key wins; inserts under different keys commute |
| Headers.ApplyField | src/types/header.rs:106-120 | one fold step fails exactly when the field has no `=`, with the error quoting the whole header text |
| Headers.FoldFailure | src/types/header.rs:105-121 | the fold fails if and only if some field lacks `=`, and then with the single parse error |
| Headers.FoldTraceId | src/types/header.rs:107-108 | after the fold, the trace id is `Rendered` of the last `Root=` field's rest, or the seed's if there is none |
| Headers.FoldParentId | src/types/header.rs:109-110 | after the fold, the parent is `Rendered` of the last `Parent=` field's rest, or the seed's if there is none |
| Headers.FoldSampling | src/types/header.rs:111-112 | after the fold, the decision is that of the last `Sampled=` field, or the seed's if there is none |
| Headers.FoldData | src/types/header.rs:113-118 | after the fold, a key is present exactly when some non-reserved, non-`Self=` field or the seed defines it, and its value is the text after the first `=` of the last such field |
| Headers.Parse | src/types/header.rs:102-123 | `from_str` fails exactly when some `;`-field lacks `=`; otherwise root, parent, decision and extension data are those of the last field of each kind |
| Headers.Format | src/types/header.rs:125-138 | the text starts with `Root=<trace id>` and is the `;`-join of the root field, the parent field if there is a parent, the decision if it is not `Unknown`, and one `k=v` per pair in the given order |
| Headers.SplitFormat | src/types/header.rs:125-138 | when no id, key or value contains `;`, the formatted text splits back into exactly the formatted fields, each with an `=` |
| Headers.AsReceived | src/types/header.rs:105-110 | a receiver gets each id back as `Rendered` text that displays as the original did, and keeps parent presence |
| Headers.ParseFormat | src/types/header.rs:105-138 | parsing a formatted header with `;`-free texts and plain keys gives the header with its ids as received texts |
| Headers.FormatAsReceived | src/types/header.rs:125-138 | formatting what a receiver rebuilt reproduces the original text |
| Headers.FormatParseFormat | src/types/header.rs:105-138 | format, parse, format: the second formatting equals the first, and the extension data is unchanged |
| HeaderLaws.FoldAppend | src/types/header.rs:105-121 | folding `a + b` is folding `b` from the result of folding `a`, and a failure in `a` is final |
| HeaderLaws.ParseIsFold | src/types/header.rs:105-106 | parsing is the fold of the `;`-split text from the default header |
| HeaderLaws.FoldOtherText | src/types/header.rs:114-116 | the header text quoted in the error does not influence whether or to what the fold succeeds |
| HeaderLaws.ParseAppendField | src/types/header.rs:105-121 | appending `;field` to a header text applies that one field to the parse of the prefix |
| HeaderLaws.SelfFieldDropped | src/types/header.rs:113 | a trailing `Self=` field changes nothing |
| HeaderLaws.LaterRootWins | src/types/header.rs:107-108 | a later `Root=` field overwrites the trace id and nothing else |
| HeaderLaws.ExtensionField | src/types/header.rs:113-118 | a later `k=v` field sets exactly that pair, overwriting an earlier value |
| HeaderLaws.FieldWithoutEquals | src/types/header.rs:114-116 | a field without `=` makes the whole parse fail, whatever came before (so does a trailing `;`) |
| HeaderLaws.EmptyHeaderFails | src/types/header.rs:114-116 | the empty text does not parse |
| HeaderLaws.ParseWithParent | src/types/header.rs:145-156 | `Root=<r>;Parent=<p>;Sampled=1` parses to Rendered root, Rendered parent, `Sampled`, no data |
| HeaderLaws.ParseWithoutParent | src/types/header.rs:157-168 | `Root=<r>;Sampled=1` parses with no parent |
| HeaderLaws.FormatRootOnly | src/types/header.rs:170-180 | a header with only a trace id formats as exactly `Root=<id>` |
| Text.SplitJoin | src/types/header.rs:105 | joining fields that contain no separator and splitting again gives the fields back |
| Text.JoinSplit | src/types/header.rs:105 | splitting on `;` and joining again gives the text back |
| Fields.ReadOpt | src/types/types.rs:32-34 | an `Option` field that is absent or `null` reads as `None`; otherwise it reads exactly what the inner decoder reads |
| Fields.ReadOptReadable | src/types/types.rs:32-34 | an `Option` field of an object reads if and only if its member is absent, `null`, or accepted by the field's decoder; an absent member is `None` |
| Fields.ReadReqPresent | src/types/types.rs:255-259 | a required field of an object reads if and only if its member is present and accepted; an absent member is ``missing field `k` ``, never a default |
| Fields.Put | src/types/types.rs:15-31 | a field without a skip rule is always emitted under its key, and no other member changes |
| Fields.PutOpt | src/types/types.rs:32-34 | an `Option` field adds its key, with the encoded value, exactly when it is `Some`; no other member changes |
| Fields.PutFlag | src/types/types.rs:35-43 | a flag adds its key, with `true`, exactly when it is set; no other member changes |
| Fields.StructMembers | src/types/types.rs:11-12 | a derived struct reads from an object (its members as they are) or from an array with exactly one item per field, and from nothing else |
| Fields.DecodeSeq | src/types/types.rs:281-282 | a `Vec` reads from an array if and only if every item reads, giving one value per item in order |
| Fields.DecodeMap | src/types/types.rs:85-90 | a `HashMap` reads from an object if and only if every value reads, giving the same keys, each with its value read |
| Fields.ReadFlag | src/types/types.rs:35-43 | a flag skipped when false reads back as false with a default, but as a missing field without one |
| Fields.DecodeEncodeSeq | src/types/types.rs:281-282 | a `Vec` reads back item for item in order |
| Fields.DecodeEncodeMap | src/types/types.rs:85-90 | a map reads back key for key |
| Causes.EncodeAnnotation | src/types/types.rs:128-137 | an untagged annotation emits a bare string, integer or boolean according to its variant |
| Causes.DecodeAnnotation | src/types/types.rs:128-137 | a string, an integer in the `usize` range or a boolean is accepted, each as its own variant, and nothing else; a rejection carries the untagged-enum message |
| Causes.AnnotationRoundTrip | src/types/types.rs:128-137 | every annotation reads back as itself, and every accepted JSON value is the encoding of what it reads as |
| Causes.EncodeStackFrame | src/types/types.rs:285-297 | a frame emits `path`, `line` and `label` each exactly when present |
| Causes.DecodeStackFrame | src/types/types.rs:285-297 | an object reads as a frame if and only if each of `path`, `line`, `label` is absent, `null` or a string; a non-object non-array is rejected |
| Causes.StackFrameRoundTrip | src/types/types.rs:285-297 | every frame reads back as itself |
| Causes.StackFrameIgnoresUnknown | src/types/types.rs:285-297 | a key that is not a frame field does not change how a frame reads |
| Causes.EncodeException | src/types/types.rs:261-283 | an exception always emits `id` and `stack`, and each optional field exactly when present |
| Causes.WithOptionals | src/types/types.rs:267-280 | the optional exception fields read if and only if each is absent, `null` or of its type; `id` and `stack` are kept |
| Causes.DecodeException | src/types/types.rs:261-283 | an object reads if and only if `id` and `stack` are present and read and every optional field reads; without `id` it fails with ``missing field `id` ``; anything that is neither object nor array is rejected |
| Causes.ExceptionRoundTrip | src/types/types.rs:261-283 | every exception, with its stack in order, reads back as itself |
| Causes.ExceptionIgnoresUnknown | src/types/types.rs:261-283 | a key that is not an exception field does not change how an exception reads |
| Causes.ExceptionsRoundTrip | src/types/types.rs:311-312 | a list of exceptions reads back in order |
| Causes.EncodeCause | src/types/types.rs:299-314 | a `Name` emits a bare string; a `Description` emits an object with exactly its three keys |
| Causes.DecodeDescription | src/types/types.rs:306-313 | the description variant reads from an object only, never from an array; an object reads if and only if all three of `working_directory`, `paths`, `exceptions` are present and read |
| Causes.DecodeCause | src/types/types.rs:299-314 | a string is always `Name`; an object reads as a `Description` exactly when its three fields read; everything else, arrays included, is rejected with the untagged-enum message, which is the only error it gives |
| Causes.CauseNotFromArray | src/types/types.rs:299-314 | an array with one item per description field is still not a cause: the untagged-enum error |
| Causes.CauseRoundTrip | src/types/types.rs:299-314 | every cause reads back as itself, paths and exceptions in order |
| Blocks.EncodeService | src/types/types.rs:190-196 | `version` is emitted exactly when present |
| Blocks.DecodeService | src/types/types.rs:190-196 | an object reads if and only if `version` is absent, `null` or a string; a non-object non-array is rejected |
| Blocks.ServiceRoundTrip | src/types/types.rs:190-196 | a service block reads back as itself |
| Blocks.EncodeEcs | src/types/types.rs:224-229 | `container` is emitted exactly when present |
| Blocks.DecodeEcs | src/types/types.rs:224-229 | an object reads if and only if `container` is absent, `null` or a string |
| Blocks.EcsRoundTrip | src/types/types.rs:224-229 | an ECS block reads back as itself |
| Blocks.EncodeEc2 | src/types/types.rs:231-239 | each EC2 field is emitted exactly when present |
| Blocks.DecodeEc2 | src/types/types.rs:231-239 | an object reads if and only if `instance_id` and `availability_zone` are each absent, `null` or a string |
| Blocks.Ec2RoundTrip | src/types/types.rs:231-239 | an EC2 block reads back as itself |
| Blocks.EncodeBeanstalk | src/types/types.rs:241-253 | each Elastic Beanstalk field is emitted exactly when present |
| Blocks.DecodeBeanstalk | src/types/types.rs:241-253 | an object reads if and only if the two names are each absent, `null` or a string and `deployment_id` is absent, `null` or a `u64` |
| Blocks.BeanstalkRoundTrip | src/types/types.rs:241-253 | an Elastic Beanstalk block reads back as itself |
| Blocks.EncodeTracing | src/types/types.rs:255-259 | `sdk` is always emitted |
| Blocks.DecodeTracing | src/types/types.rs:255-259 | an object reads if and only if `sdk` is present and a string; without `sdk` it fails with ``missing field `sdk` `` |
| Blocks.TracingRoundTrip | src/types/types.rs:255-259 | a tracing block reads back as itself |
| Blocks.EncodeXRay | src/types/types.rs:219-222 | `sdk_version` is always emitted, as `null` exactly when it is `None` |
| Blocks.DecodeXRay | src/types/types.rs:219-222 | an object reads if and only if `sdk_version` is absent, `null` or a string; absent or `null` reads as `None` |
| Blocks.XRayRoundTrip | src/types/types.rs:219-222 | an X-Ray block reads back as itself |
| Blocks.EncodeAws | src/types/types.rs:198-217 | each AWS field is emitted exactly when present |
| Blocks.DecodeAws | src/types/types.rs:198-217 | an object reads if and only if `account_id` and each nested block is absent, `null`, or reads by its own decoder |
| Blocks.AwsRoundTrip | src/types/types.rs:198-217 | an AWS block with all its nested blocks reads back as itself |
| Blocks.EncodeRequest | src/types/types.rs:156-177 | each request field is emitted exactly when present, the method under the key `method` |
| Blocks.DecodeRequest | src/types/types.rs:156-177 | an object reads if and only if each string field is absent, `null` or a string and `traced` is absent, `null` or a boolean |
| Blocks.RequestRoundTrip | src/types/types.rs:156-177 | a request block reads back as itself |
| Blocks.EncodeResponse | src/types/types.rs:179-188 | each response field is emitted exactly when present |
| Blocks.DecodeResponse | src/types/types.rs:179-188 | an object reads if and only if `status` is absent, `null` or a `u16` and `content_length` absent, `null` or a `u64`; a status of 2^16 or more is rejected |
| Blocks.ResponseRoundTrip | src/types/types.rs:179-188 | a response block reads back as itself |
| Blocks.EncodeHttp | src/types/types.rs:145-154 | `request` and `response` are each emitted exactly when present |
| Blocks.DecodeHttp | src/types/types.rs:145-154 | an object reads if and only if `request` and `response` are each absent, `null` or read by their own decoders |
| Blocks.HttpRoundTrip | src/types/types.rs:145-154 | an HTTP block reads back as itself |
| Segments.DefaultSegment | src/types/types.rs:11-31 | the default segment has generated ids, an empty name and the start time, with every other field `None` or `false` |
| Segments.Begin | src/types/types.rs:104-116 | the name is kept when at most 200 units, and otherwise cut to its first 200; the result is always a prefix of at most 200 units; every other field is the default |
| Segments.End | src/types/types.rs:118-123 | `end_time` becomes the supplied time, `in_progress` becomes false, and nothing else changes |
| Segments.EndTwice | src/types/types.rs:118-123 | ending twice differs from ending once only in the end time |
| Segments.EmittedKeys | src/types/types.rs:32-97 | the key set always holds the four identity keys and holds no key that is not a field name |
| Segments.EmittedKeysByField | src/types/types.rs:32-97 | each key with a skip rule is in the document exactly when its `Option` is `Some` or its flag is `true` |
| Segments.UnsetKeys | src/types/types.rs:32-97 | a segment emits only the four identity keys if and only if every other field is `None` or `false` |
| Segments.BeginKeys | src/types/types.rs:104-116 | a begun segment emits exactly `trace_id`, `id`, `name`, `start_time` |
| Segments.EndKeys | src/types/types.rs:118-123 | ending a segment removes `in_progress` from its keys and adds `end_time` |
| Segments.SegmentMembers | src/types/types.rs:32-97 | the document's keys are the four identity keys, each `Option` field that is `Some`, and each flag that is true |
| Segments.EncodeSegment | src/types/types.rs:11-98 | the document is an object with exactly the emitted keys |
| Segments.StateRead | src/types/types.rs:32-60 | `end_time` and `parent_id` are emitted as their serialised values when present; each flag is `true` when set and absent otherwise |
| Segments.DetailRead | src/types/types.rs:61-80 | `cause`, `origin`, `user`, `resource_arn` are emitted as their serialised values exactly when present |
| Segments.ContextRead | src/types/types.rs:81-97 | `annotations`, `metadata`, `aws`, `service` are emitted as their serialised values exactly when present |
| Segments.AnnotationsRoundTrip | src/types/types.rs:85-86 | an annotation map reads back key for key |
| Segments.WithRequiredFlags | src/types/types.rs:35-60 | as declared, the flags read if and only if all four are present booleans; without `in_progress` it is ``missing field `in_progress` ``; the other fields are kept |
| Segments.WithDefaultedFlags | src/types/types.rs:35-60 | with defaults, the flags read if and only if each is absent or a boolean, and each flag is true exactly when the document holds `true` for it |
| Segments.DecodeSegmentAsWritten | src/types/types.rs:11-98 | the derived deserializer: a non-object non-array is rejected; an object without `trace_id` gives ``missing field `trace_id` ``; an object without `in_progress` is always rejected, with ``missing field `in_progress` `` once its other fields read |
| Segments.DecodeSegment | src/types/types.rs:11-98 | with defaulted flags, an object reads if and only if its other fields read and each flag is absent or a boolean; each flag reads true exactly when the document holds `true` |
| Segments.Received | src/types/ids.rs:48-54 | reading a document gives each id back as `Rendered` text that displays as the original did; all else is unchanged |
| Segments.SegmentRoundTrip | src/types/types.rs:11-98 | with the flags defaulting to false, every segment's document reads back as the segment with its ids as received texts |
| Segments.AsWrittenRoundTrip | src/types/types.rs:35-60 | as declared, a document reads back if and only if all four flags are true; with `in_progress` false it fails with ``missing field `in_progress` `` |
| Segments.BegunDocument | src/types/types.rs:104-116 | as declared, the document of a begun segment cannot be read back; with defaulted flags it reads back |
| Segments.EndedDocument | src/types/types.rs:118-123 | as declared, the document of an ended segment cannot be read back; with defaulted flags it reads back |
| Segments.ReceivedStable | src/types/types.rs:11-98 | receiving twice is receiving once, and a received segment's document reads back as itself |

## Left out

- The clock (`Seconds::now`) and `rand::thread_rng` are not modelled. Each reading is a parameter, so every function is deterministic. `Segment::default` reads the clock twice, once for the trace id and once for the start time, and `DefaultSegment` takes both readings.
- `Seconds` is an exact `real`, not an `f64`. NaN, infinities, rounding and the float text that `serde_json` prints are not modelled. Neither are the `Duration` conversions in `src/types/time.rs`.
- `src/lib.rs` is not part of this model. It is the `tracing` subscriber layer: span extensions and panicking `expect`s.
- Real JSON text is not modelled. Documents are `Json` values, and a JSON object is a map, so duplicate keys cannot be written. In serde a duplicate of a derived struct's known field is an error, a duplicate in the `annotations` or `metadata` map or in a `serde_json::Value` keeps the last value, and a duplicate of an unknown key is ignored; none of this is modelled.
- Error texts are approximations at every level. Serde names the value it found (``invalid type: integer `5`, expected a string``), and `serde_json` adds `at line L column C`; the model's texts do not. Only the ``missing field `k` `` texts and the untagged-enum texts are reproduced.
- When several fields of one object are wrong, the model may report a different one than serde. The derived deserializer reads the values in document order and reports a missing field only after the whole object; the model reads the fields in declaration order, so a missing field and a malformed one are checked in that order. Whether an object reads at all is the same either way.
- `usize` is taken to be 64 bits wide, as on the usual 64-bit targets. On a 32-bit target `Annotation::Number`, `ElasticBeanstalk.deployment_id`, `Exception.truncated` and `Exception.skipped` would reject integers of 2^32 or more (an annotation such as `5000000000` would then get the untagged-enum error); that narrower range is not modelled.
- Metadata values (`serde_json::Value`) are opaque `Json` values, kept as given.
- Segments.Begin requires that the cut at 200 units does not fall inside a UTF-8 character. The crate panics in that case, and the panic is not modelled.
- Headers.Format takes the extension-map order as a parameter, because the hash map's iteration order is unspecified. The round-trip lemmas hold for every such order.
- Headers.ParseFormat holds only for headers with no `;` in the id texts, keys or values, and with keys that are not reserved. Other headers do not survive a split on `;`.
- Headers.Parse starts from the default header, whose trace id is generated. The clock reading and the bytes for it are parameters.
- Segments.ReceivedStable does not claim that re-encoding a received segment gives the same document. It claims that the received segment reads back as itself, which implies that the document keys agree.
- `Http` is modelled as a block, but the segment has no `http` field. The crate has that field commented out.

## Findings

| source | as written | input that shows it | evidently intended | confidence | as-written member | corrected member |
|---|---|---|---|---|---|---|
| src/types/types.rs:35-60 | `in_progress`, `fault`, `error` and `throttle` are skipped when false, but have no `#[serde(default)]`, so the derived deserializer requires them | any segment from `Segment::begin`, or any ended segment: its document lacks `in_progress`, and reading it fails with ``missing field `in_progress` `` | a skipped flag reads back as `false` (`#[serde(default)]`), so every document reads back | not executed | Segments.AsWrittenRoundTrip | Segments.SegmentRoundTrip |
