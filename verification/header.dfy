/**
  The `X-Amzn-Trace-Id` propagation header: the sampling-decision codec, the
  parsed header record with its builders, the parser (a left fold over the
  `;`-separated fields) and the formatter.
 */
module Headers {
  import opened Wrappers
  import opened Text
  import opened Time
  import opened Ids

  /** HTTP header name carrying the trace context. */
  const NAME: string := "X-Amzn-Trace-Id"

  datatype SamplingDecision =
    | Sampled      // the segment is sampled and will be sent
    | NotSampled   // the segment is not sampled
    | Requested    // the downstream service decides and reports back
    | Unknown      // no decision

  /** Exact match on the three field texts; anything else is `Unknown`, never an error. */
  function DecodeDecision(s: string): (d: SamplingDecision)
    ensures d == Sampled <==> s == "Sampled=1"
    ensures d == NotSampled <==> s == "Sampled=0"
    ensures d == Requested <==> s == "Sampled=?"
  {
    if s == "Sampled=1" then Sampled
    else if s == "Sampled=0" then NotSampled
    else if s == "Sampled=?" then Requested
    else Unknown
  }

  /** The field text of a decision; `Unknown` has none. */
  function EncodeDecision(d: SamplingDecision): (s: string)
    ensures DecodeDecision(s) == d
    ensures s == "" <==> d == Unknown
    ensures d != Unknown ==> StartsWith(s, "Sampled=")
  {
    match d
    case Sampled => "Sampled=1"
    case NotSampled => "Sampled=0"
    case Requested => "Sampled=?"
    case Unknown => ""
  }

  /** A text that decodes to a known decision is the encoding of that decision. */
  lemma EncodeOfDecode(s: string)
    requires DecodeDecision(s) != Unknown
    ensures EncodeDecision(DecodeDecision(s)) == s
  {
  }

  /** Parsed representation of the header. */
  datatype Header = Header(
    trace_id: TraceId,
    parent_id: Option<SegmentId>,
    sampling_decision: SamplingDecision,
    additional_data: map<string, string>)

  /**
    `Header::default()`: a freshly generated trace id (the clock reading and the
    random bytes are passed in), no parent, no decision, no extension data.
   */
  function DefaultHeader(now: Seconds, random: Bytes12): (h: Header)
    ensures h.trace_id == NewTraceId(now, random)
    ensures h.parent_id.None? && h.sampling_decision == Unknown && h.additional_data == map[]
  {
    Header(NewTraceId(now, random), None, Unknown, map[])
  }

  /** `Header::new`: the given trace id, every other field as in the default. */
  function NewHeader(trace_id: TraceId): (h: Header)
    ensures h.trace_id == trace_id
    ensures h.parent_id.None? && h.sampling_decision == Unknown && h.additional_data == map[]
  {
    Header(trace_id, None, Unknown, map[])
  }

  function WithParentId(h: Header, parent_id: SegmentId): (r: Header)
    ensures r.parent_id == Some(parent_id)
    ensures r.trace_id == h.trace_id && r.sampling_decision == h.sampling_decision
    ensures r.additional_data == h.additional_data
  {
    h.(parent_id := Some(parent_id))
  }

  function WithSamplingDecision(h: Header, decision: SamplingDecision): (r: Header)
    ensures r.sampling_decision == decision
    ensures r.trace_id == h.trace_id && r.parent_id == h.parent_id
    ensures r.additional_data == h.additional_data
  {
    h.(sampling_decision := decision)
  }

  /** Inserts one extension pair; an existing value for the key is replaced. */
  function WithData(h: Header, key: string, value: string): (r: Header)
    ensures r.additional_data.Keys == h.additional_data.Keys + {key}
    ensures r.additional_data[key] == value
    ensures forall k :: k in h.additional_data && k != key ==> r.additional_data[k] == h.additional_data[k]
    ensures r.trace_id == h.trace_id && r.parent_id == h.parent_id
    ensures r.sampling_decision == h.sampling_decision
  {
    h.(additional_data := h.additional_data[key := value])
  }

  /** Builders of different fields commute. */
  lemma BuildersCommute(h: Header, p: SegmentId, d: SamplingDecision, k: string, v: string)
    ensures WithSamplingDecision(WithParentId(h, p), d) == WithParentId(WithSamplingDecision(h, d), p)
    ensures WithData(WithParentId(h, p), k, v) == WithParentId(WithData(h, k, v), p)
    ensures WithData(WithSamplingDecision(h, d), k, v) == WithSamplingDecision(WithData(h, k, v), d)
  {
  }

  /** A later `with_data` for a key wins; insertions under different keys commute. */
  lemma WithDataOverwrites(h: Header, k: string, v: string, k': string, v': string)
    ensures WithData(WithData(h, k, v), k, v') == WithData(h, k, v')
    ensures k != k' ==> WithData(WithData(h, k, v), k', v') == WithData(WithData(h, k', v'), k, v)
  {
    var m := h.additional_data;
    assert m[k := v][k := v'] == m[k := v'];
    if k != k' {
      assert m[k := v][k' := v'] == m[k' := v'][k := v];
    }
  }

  // ---------------------------------------------------------------------------
  // Parsing

  /** The message of the one parse error; it quotes the whole header text. */
  function ParseError(s: string): string
  {
    "invalid key=value: no `=` found in `" + s + "`"
  }

  /** Fields with a meaning of their own: they never reach the extension data. */
  predicate IsReserved(line: string)
  {
    StartsWith(line, "Root=") || StartsWith(line, "Parent=")
    || StartsWith(line, "Sampled=") || StartsWith(line, "Self=")
  }

  /** One step of the fold: what one `;`-separated field does to the header. */
  function ApplyField(h: Header, line: string, s: string): (r: Result<Header, string>)
    ensures r.Failure? <==> '=' !in line
    ensures r.Failure? ==> r.error == ParseError(s)
  {
    if StartsWith(line, "Root=") then
      StartsWithContains(line, "Root=", '=');
      Success(h.(trace_id := TraceId.Rendered(line[5..])))
    else if StartsWith(line, "Parent=") then
      StartsWithContains(line, "Parent=", '=');
      Success(h.(parent_id := Some(SegmentId.Rendered(line[7..]))))
    else if StartsWith(line, "Sampled=") then
      StartsWithContains(line, "Sampled=", '=');
      Success(h.(sampling_decision := DecodeDecision(line)))
    else if StartsWith(line, "Self=") then
      StartsWithContains(line, "Self=", '=');
      Success(h)
    else
      match Find(line, '=')
      case None => Failure(ParseError(s))
      case Some(pos) => Success(h.(additional_data := h.additional_data[line[..pos] := line[pos + 1..]]))
  }

  /** `try_fold` over the fields: the first failing field stops the fold. */
  function FoldFields(h: Header, lines: seq<string>, s: string): Result<Header, string>
    decreases |lines|
  {
    if |lines| == 0 then Success(h)
    else
      match ApplyField(h, lines[0], s)
      case Failure(e) => Failure(e)
      case Success(h') => FoldFields(h', lines[1..], s)
  }

  /** The fold fails exactly when some field has no `=`, and always with the same message. */
  lemma {:induction false} FoldFailure(h: Header, lines: seq<string>, s: string)
    ensures FoldFields(h, lines, s).Failure? <==> exists i :: 0 <= i < |lines| && '=' !in lines[i]
    ensures FoldFields(h, lines, s).Failure? ==> FoldFields(h, lines, s).error == ParseError(s)
    decreases |lines|
  {
    if |lines| > 0 {
      match ApplyField(h, lines[0], s)
      case Failure(e) =>
      case Success(h') =>
        FoldFailure(h', lines[1..], s);
        if exists i :: 0 <= i < |lines| && '=' !in lines[i] {
          var i :| 0 <= i < |lines| && '=' !in lines[i];
          assert i > 0 && '=' !in lines[1..][i - 1];
        }
        if exists i :: 0 <= i < |lines[1..]| && '=' !in lines[1..][i] {
          var i :| 0 <= i < |lines[1..]| && '=' !in lines[1..][i];
          assert '=' !in lines[i + 1];
        }
    }
  }

  // Reference definitions of a successful parse, stated without the fold.

  /** The text after `prefix` in the LAST line that starts with it. */
  function LastWithPrefix(lines: seq<string>, prefix: string): Option<string>
  {
    if |lines| == 0 then None
    else
      match LastWithPrefix(lines[1..], prefix)
      case Some(v) => Some(v)
      case None => if StartsWith(lines[0], prefix) then Some(lines[0][|prefix|..]) else None
  }

  /** The extension pair a field contributes: a non-reserved field cut at its first `=`. */
  function FieldPair(line: string): Option<(string, string)>
  {
    if IsReserved(line) then None
    else
      match Find(line, '=')
      case None => None
      case Some(pos) => Some((line[..pos], line[pos + 1..]))
  }

  /** The value a map holds for `k`, if any. */
  function Lookup(m: map<string, string>, k: string): Option<string>
  {
    if k in m then Some(m[k]) else None
  }

  /** The value the LAST field with key `key` carries. */
  function LastValue(lines: seq<string>, key: string): Option<string>
  {
    if |lines| == 0 then None
    else
      match LastValue(lines[1..], key)
      case Some(v) => Some(v)
      case None =>
        match FieldPair(lines[0])
        case Some(kv) => if kv.0 == key then Some(kv.1) else None
        case None => None
  }

  /** The trace id after the fields: the one of the last `Root=` field, else `fallback`. */
  function RootOf(lines: seq<string>, fallback: TraceId): TraceId
  {
    match LastWithPrefix(lines, "Root=")
    case Some(t) => TraceId.Rendered(t)
    case None => fallback
  }

  /** The parent after the fields: the one of the last `Parent=` field, else `fallback`. */
  function ParentOf(lines: seq<string>, fallback: Option<SegmentId>): Option<SegmentId>
  {
    match LastWithPrefix(lines, "Parent=")
    case Some(t) => Some(SegmentId.Rendered(t))
    case None => fallback
  }

  /** The decision after the fields: decoded from the last `Sampled=` field, else `fallback`. */
  function DecisionOf(lines: seq<string>, fallback: SamplingDecision): SamplingDecision
  {
    match LastWithPrefix(lines, "Sampled=")
    case Some(v) => DecodeDecision("Sampled=" + v)
    case None => fallback
  }

  lemma {:induction false} FoldTraceId(h: Header, lines: seq<string>, s: string)
    requires FoldFields(h, lines, s).Success?
    ensures FoldFields(h, lines, s).value.trace_id == RootOf(lines, h.trace_id)
    decreases |lines|
  {
    if |lines| > 0 {
      FoldTraceId(ApplyField(h, lines[0], s).value, lines[1..], s);
    }
  }

  lemma {:induction false} FoldParentId(h: Header, lines: seq<string>, s: string)
    requires FoldFields(h, lines, s).Success?
    ensures FoldFields(h, lines, s).value.parent_id == ParentOf(lines, h.parent_id)
    decreases |lines|
  {
    if |lines| > 0 {
      var line := lines[0];
      var h' := ApplyField(h, line, s).value;
      FoldParentId(h', lines[1..], s);
      if StartsWith(line, "Parent=") {
        assert line[0] == 'P';
        assert h'.parent_id == Some(SegmentId.Rendered(line[7..]));
      } else {
        assert h'.parent_id == h.parent_id;
      }
    }
  }

  lemma {:induction false} FoldSampling(h: Header, lines: seq<string>, s: string)
    requires FoldFields(h, lines, s).Success?
    ensures FoldFields(h, lines, s).value.sampling_decision == DecisionOf(lines, h.sampling_decision)
    decreases |lines|
  {
    if |lines| > 0 {
      var line := lines[0];
      var h' := ApplyField(h, line, s).value;
      FoldSampling(h', lines[1..], s);
      if StartsWith(line, "Sampled=") {
        assert line == "Sampled=" + line[8..];
        assert line[0] == 'S';
        assert h'.sampling_decision == DecodeDecision(line);
      } else {
        assert h'.sampling_decision == h.sampling_decision;
      }
    }
  }

  /** Each extension key holds the value of its last field; reserved and `Self=` fields add none. */
  lemma {:induction false} FoldData(h: Header, lines: seq<string>, s: string)
    requires FoldFields(h, lines, s).Success?
    ensures var data := FoldFields(h, lines, s).value.additional_data;
      forall k :: (k in data <==> k in h.additional_data || LastValue(lines, k).Some?)
    ensures var data := FoldFields(h, lines, s).value.additional_data;
      forall k :: k in data ==>
        data[k] == if LastValue(lines, k).Some? then LastValue(lines, k).value else h.additional_data[k]
    decreases |lines|
  {
    if |lines| > 0 {
      var h' := ApplyField(h, lines[0], s).value;
      FoldData(h', lines[1..], s);
      assert forall k :: k in h'.additional_data <==> k in h.additional_data || (FieldPair(lines[0]).Some? && FieldPair(lines[0]).value.0 == k);
    }
  }

  /** What a successful fold yields, field by field, in terms of the reference definitions. */
  lemma FoldResult(h: Header, lines: seq<string>, s: string)
    requires FoldFields(h, lines, s).Success?
    ensures var r := FoldFields(h, lines, s).value;
      && r.trace_id == RootOf(lines, h.trace_id)
      && r.parent_id == ParentOf(lines, h.parent_id)
      && r.sampling_decision == DecisionOf(lines, h.sampling_decision)
      && (forall k :: k in r.additional_data <==> k in h.additional_data || LastValue(lines, k).Some?)
  {
    FoldTraceId(h, lines, s);
    FoldParentId(h, lines, s);
    FoldSampling(h, lines, s);
    FoldData(h, lines, s);
  }

  /**
    `Header::from_str`: the fields of `s.split(';')` folded left to right into
    the default header (whose generated trace id needs the clock reading and
    random bytes passed in).
   */
  function Parse(s: string, now: Seconds, random: Bytes12): (r: Result<Header, string>)
    ensures var lines := Split(s, ';');
      r.Failure? <==> exists i :: 0 <= i < |lines| && '=' !in lines[i]
    ensures r.Failure? ==> r.error == ParseError(s)
    ensures r.Success? ==> r.value.trace_id == RootOf(Split(s, ';'), NewTraceId(now, random))
    ensures r.Success? ==> r.value.parent_id == ParentOf(Split(s, ';'), None)
    ensures r.Success? ==> r.value.sampling_decision == DecisionOf(Split(s, ';'), Unknown)
    ensures r.Success? ==> forall k :: k in r.value.additional_data <==> LastValue(Split(s, ';'), k).Some?
    ensures r.Success? ==> forall k :: k in r.value.additional_data ==>
      Some(r.value.additional_data[k]) == LastValue(Split(s, ';'), k)
  {
    var lines := Split(s, ';');
    var h := DefaultHeader(now, random);
    FoldFailure(h, lines, s);
    if FoldFields(h, lines, s).Success? then
      FoldResult(h, lines, s);
      FoldData(h, lines, s);
      FoldFields(h, lines, s)
    else
      FoldFields(h, lines, s)
  }

  // ---------------------------------------------------------------------------
  // Formatting

  /**
    The order in which the extension map is walked. The crate's hash map gives
    no order, so the formatter takes one as a parameter: every key exactly once.
   */
  predicate Enumerates(order: seq<string>, m: map<string, string>)
  {
    && (forall i :: 0 <= i < |order| ==> order[i] in m)
    && (forall k :: k in m ==> k in order)
    && (forall i, j :: 0 <= i < j < |order| ==> order[i] != order[j])
  }

  /** `;k=v` for each key, in the given order. */
  function DataText(m: map<string, string>, order: seq<string>): string
    requires forall i :: 0 <= i < |order| ==> order[i] in m
  {
    if |order| == 0 then "" else ";" + order[0] + "=" + m[order[0]] + DataText(m, order[1..])
  }

  /** `Display for Header`. */
  function Format(h: Header, order: seq<string>): (r: string)
    requires Enumerates(order, h.additional_data)
    ensures r == Join(FieldLines(h, order), ';')
    ensures StartsWith(r, "Root=" + h.trace_id.Display())
  {
    FormatIsJoin(h, order);
    "Root=" + h.trace_id.Display() + ParentText(h) + DecisionText(h) + DataText(h.additional_data, order)
  }

  /** `;Parent=<id>` when there is a parent. */
  function ParentText(h: Header): string
  {
    match h.parent_id
    case Some(p) => ";Parent=" + p.Display()
    case None => ""
  }

  /** `;<decision>` unless the decision is `Unknown`. */
  function DecisionText(h: Header): string
  {
    if h.sampling_decision != Unknown then ";" + EncodeDecision(h.sampling_decision) else ""
  }

  // The formatted header as a list of fields, the shape the parser reads back.

  function RootLine(h: Header): string
  {
    "Root=" + h.trace_id.Display()
  }

  function ParentLines(h: Header): seq<string>
  {
    match h.parent_id
    case Some(p) => ["Parent=" + p.Display()]
    case None => []
  }

  function DecisionLines(h: Header): seq<string>
  {
    if h.sampling_decision != Unknown then [EncodeDecision(h.sampling_decision)] else []
  }

  /** `k=v` for each key, in the given order. */
  function DataLines(m: map<string, string>, order: seq<string>): (lines: seq<string>)
    requires forall i :: 0 <= i < |order| ==> order[i] in m
    ensures |lines| == |order|
    ensures forall i :: 0 <= i < |order| ==> lines[i] == order[i] + "=" + m[order[i]]
  {
    if |order| == 0 then [] else [order[0] + "=" + m[order[0]]] + DataLines(m, order[1..])
  }

  function FieldLines(h: Header, order: seq<string>): seq<string>
    requires Enumerates(order, h.additional_data)
  {
    HeadLines(h) + DataLines(h.additional_data, order)
  }

  /** Appending fields to a non-empty run appends `;` and their join, or nothing. */
  lemma JoinTail(a: seq<string>, b: seq<string>)
    requires |a| >= 1
    ensures Join(a + b, ';') == Join(a, ';') + if |b| == 0 then "" else ";" + Join(b, ';')
  {
    if |b| == 0 {
      assert a + b == a;
    } else {
      JoinAppend(a, b, ';');
    }
  }

  lemma {:induction false} DataTextIsJoin(m: map<string, string>, order: seq<string>)
    requires forall i :: 0 <= i < |order| ==> order[i] in m
    ensures DataText(m, order) == if |order| == 0 then "" else ";" + Join(DataLines(m, order), ';')
    decreases |order|
  {
    if |order| > 1 {
      DataTextIsJoin(m, order[1..]);
      var lines := DataLines(m, order);
      assert lines == [lines[0]] + DataLines(m, order[1..]);
      JoinAppend([lines[0]], DataLines(m, order[1..]), ';');
    } else if |order| == 1 {
      assert DataText(m, order[1..]) == "";
    }
  }

  /** `;` and the single field of a run of at most one field, or nothing. */
  function OptText(lines: seq<string>): string
    requires |lines| <= 1
  {
    if |lines| == 0 then "" else ";" + lines[0]
  }

  /** Joining a first field, two optional fields and a run of further fields. */
  lemma JoinFields(root: string, parent: seq<string>, decision: seq<string>, data: seq<string>)
    requires |parent| <= 1 && |decision| <= 1
    ensures Join([root] + parent + decision + data, ';') ==
      root + OptText(parent) + OptText(decision) + if |data| == 0 then "" else ";" + Join(data, ';')
  {
    var a := [root];
    var b := a + parent;
    var c := b + decision;
    JoinTail(a, parent);
    JoinTail(b, decision);
    JoinTail(c, data);
  }

  lemma ParentTextIsOpt(h: Header)
    ensures ParentText(h) == OptText(ParentLines(h))
  {
    if h.parent_id.Some? {
      var d := h.parent_id.value.Display();
      assert ";Parent=" + d == ";" + ("Parent=" + d);
    }
  }

  lemma FormatIsJoin(h: Header, order: seq<string>)
    requires Enumerates(order, h.additional_data)
    ensures Join(FieldLines(h, order), ';') ==
      "Root=" + h.trace_id.Display() + ParentText(h) + DecisionText(h) + DataText(h.additional_data, order)
  {
    var data := DataLines(h.additional_data, order);
    JoinFields(RootLine(h), ParentLines(h), DecisionLines(h), data);
    ParentTextIsOpt(h);
    DataTextIsJoin(h.additional_data, order);
  }

  // ---------------------------------------------------------------------------
  // Round trip

  /** An extension key that formats and re-parses as itself. */
  predicate IsPlainKey(k: string)
  {
    ';' !in k && '=' !in k && k != "Root" && k != "Parent" && k != "Sampled" && k != "Self"
  }

  /** A header whose texts survive `;`-splitting: no `;` in ids, keys or values, plain keys. */
  predicate Propagatable(h: Header)
  {
    && ';' !in h.trace_id.Display()
    && (h.parent_id.Some? ==> ';' !in h.parent_id.value.Display())
    && forall k :: k in h.additional_data ==> IsPlainKey(k) && ';' !in h.additional_data[k]
  }

  /** What a receiver rebuilds from a header: ids as the received texts, the rest unchanged. */
  function AsReceived(h: Header): (r: Header)
    ensures r.trace_id.Display() == h.trace_id.Display()
    ensures r.parent_id.Some? <==> h.parent_id.Some?
    ensures r.parent_id.Some? ==> r.parent_id.value.Display() == h.parent_id.value.Display()
  {
    Header(
      TraceId.Rendered(h.trace_id.Display()),
      match h.parent_id case Some(p) => Some(SegmentId.Rendered(p.Display())) case None => None,
      h.sampling_decision,
      h.additional_data)
  }

  lemma LastWithPrefixAppend(a: seq<string>, b: seq<string>, prefix: string)
    ensures LastWithPrefix(a + b, prefix) ==
      if LastWithPrefix(b, prefix).Some? then LastWithPrefix(b, prefix) else LastWithPrefix(a, prefix)
  {
    if |a| > 0 {
      assert (a + b)[1..] == a[1..] + b;
      LastWithPrefixAppend(a[1..], b, prefix);
    } else {
      assert a + b == b;
    }
  }

  lemma LastValueAppend(a: seq<string>, b: seq<string>, key: string)
    ensures LastValue(a + b, key) == if LastValue(b, key).Some? then LastValue(b, key) else LastValue(a, key)
  {
    if |a| > 0 {
      assert (a + b)[1..] == a[1..] + b;
      LastValueAppend(a[1..], b, key);
    } else {
      assert a + b == b;
    }
  }

  lemma LastOfOne(line: string, prefix: string, key: string)
    ensures LastWithPrefix([line], prefix) == if StartsWith(line, prefix) then Some(line[|prefix|..]) else None
    ensures LastValue([line], key) ==
      if FieldPair(line).Some? && FieldPair(line).value.0 == key then Some(FieldPair(line).value.1) else None
  {
    assert [line][1..] == [];
  }

  /** With no `=` in the key, `k=v` starts with `w=` only when `k` is `w`. */
  lemma KeyLinePrefix(k: string, v: string, w: string)
    requires '=' !in k && '=' !in w && k != w
    ensures !StartsWith(k + "=" + v, w + "=")
  {
    var line := k + "=" + v;
    var p := w + "=";
    if |p| <= |line| {
      if |k| < |w| {
        assert line[..|p|][|k|] == '=';
        assert p[|k|] == w[|k|] != '=';
      } else if |k| > |w| {
        assert line[..|p|][|w|] == k[|w|] != '=';
        assert p[|w|] == '=';
      } else {
        assert line[..|p|][..|w|] == k;
        assert p[..|w|] == w;
      }
    }
  }

  /** A field `k=v` with a plain key is an extension pair and nothing else. */
  lemma PlainKeyLine(k: string, v: string)
    requires IsPlainKey(k)
    ensures !IsReserved(k + "=" + v)
    ensures FieldPair(k + "=" + v) == Some((k, v))
  {
    var line := k + "=" + v;
    KeyLinePrefix(k, v, "Root");
    KeyLinePrefix(k, v, "Parent");
    KeyLinePrefix(k, v, "Sampled");
    KeyLinePrefix(k, v, "Self");
    assert "Root" + "=" == "Root=" && "Parent" + "=" == "Parent=";
    assert "Sampled" + "=" == "Sampled=" && "Self" + "=" == "Self=";
    var pos := Find(line, '=');
    assert line[|k|] == '=';
    assert forall i :: 0 <= i < |k| ==> line[i] == k[i];
    assert pos == Some(|k|);
    assert line[..|k|] == k;
    assert line[|k| + 1..] == v;
  }

  /** The extension fields hold no reserved field and carry exactly the map's pairs. */
  lemma {:induction false} DataLinesRead(m: map<string, string>, order: seq<string>, key: string)
    requires forall i :: 0 <= i < |order| ==> order[i] in m && IsPlainKey(order[i])
    ensures LastWithPrefix(DataLines(m, order), "Root=") == None
    ensures LastWithPrefix(DataLines(m, order), "Parent=") == None
    ensures LastWithPrefix(DataLines(m, order), "Sampled=") == None
    ensures LastValue(DataLines(m, order), key) == if key in order then Some(m[key]) else None
    decreases |order|
  {
    if |order| > 0 {
      DataLinesRead(m, order[1..], key);
      PlainKeyLine(order[0], m[order[0]]);
      var lines := DataLines(m, order);
      assert lines[1..] == DataLines(m, order[1..]);
      assert key in order <==> key == order[0] || key in order[1..];
    }
  }

  /** A field `w t` for one of the three reserved prefixes `w` is read only under `w`. */
  lemma PrefixedLineRead(w: string, t: string, key: string)
    requires w == "Root=" || w == "Parent=" || w == "Sampled="
    ensures LastWithPrefix([w + t], "Root=") == if w == "Root=" then Some(t) else None
    ensures LastWithPrefix([w + t], "Parent=") == if w == "Parent=" then Some(t) else None
    ensures LastWithPrefix([w + t], "Sampled=") == if w == "Sampled=" then Some(t) else None
    ensures LastValue([w + t], key) == None
  {
    var line := w + t;
    LastOfOne(line, "Root=", key);
    LastOfOne(line, "Parent=", key);
    LastOfOne(line, "Sampled=", key);
    assert line[..|w|] == w && line[|w|..] == t;
    assert StartsWith(line, w);
    assert line[0] == w[0];
  }

  lemma RootLineRead(h: Header, key: string)
    ensures LastWithPrefix([RootLine(h)], "Root=") == Some(h.trace_id.Display())
    ensures LastWithPrefix([RootLine(h)], "Parent=") == None
    ensures LastWithPrefix([RootLine(h)], "Sampled=") == None
    ensures LastValue([RootLine(h)], key) == None
  {
    PrefixedLineRead("Root=", h.trace_id.Display(), key);
  }

  lemma ParentLinesRead(h: Header, key: string)
    ensures LastWithPrefix(ParentLines(h), "Root=") == None
    ensures LastWithPrefix(ParentLines(h), "Parent=") ==
      match h.parent_id case Some(p) => Some(p.Display()) case None => None
    ensures LastWithPrefix(ParentLines(h), "Sampled=") == None
    ensures LastValue(ParentLines(h), key) == None
  {
    if h.parent_id.Some? {
      PrefixedLineRead("Parent=", h.parent_id.value.Display(), key);
    }
  }

  lemma DecisionLinesRead(h: Header, key: string)
    ensures LastWithPrefix(DecisionLines(h), "Root=") == None
    ensures LastWithPrefix(DecisionLines(h), "Parent=") == None
    ensures DecisionOf(DecisionLines(h), Unknown) == h.sampling_decision
    ensures LastValue(DecisionLines(h), key) == None
  {
    if h.sampling_decision != Unknown {
      var line := EncodeDecision(h.sampling_decision);
      assert line == "Sampled=" + line[8..];
      PrefixedLineRead("Sampled=", line[8..], key);
    }
  }

  /** A field that survives `;`-splitting and carries an `=`. */
  predicate SplitSafe(line: string)
  {
    ';' !in line && '=' in line
  }

  lemma SplitSafeAppend(a: seq<string>, b: seq<string>)
    requires forall i :: 0 <= i < |a| ==> SplitSafe(a[i])
    requires forall i :: 0 <= i < |b| ==> SplitSafe(b[i])
    ensures forall i :: 0 <= i < |a + b| ==> SplitSafe((a + b)[i])
  {
    forall i | 0 <= i < |a + b| ensures SplitSafe((a + b)[i]) {
      if i >= |a| {
        assert (a + b)[i] == b[i - |a|];
      }
    }
  }

  lemma SplitSafeJoined(w: string, t: string)
    requires ';' !in w && '=' in w && ';' !in t
    ensures SplitSafe(w + t)
  {
    var i :| 0 <= i < |w| && w[i] == '=';
    assert (w + t)[i] == '=';
  }

  /** Every formatted field survives the split and carries an `=`. */
  lemma FieldLinesShape(h: Header, order: seq<string>)
    requires Enumerates(order, h.additional_data)
    requires Propagatable(h)
    ensures forall i :: 0 <= i < |FieldLines(h, order)| ==>
      ';' !in FieldLines(h, order)[i] && '=' in FieldLines(h, order)[i]
  {
    HeadLinesSafe(h);
    DataLinesSafe(h.additional_data, order);
    SplitSafeAppend(HeadLines(h), DataLines(h.additional_data, order));
  }

  /** The fields before the extension data. */
  function HeadLines(h: Header): seq<string>
  {
    [RootLine(h)] + ParentLines(h) + DecisionLines(h)
  }

  lemma HeadLinesSafe(h: Header)
    requires ';' !in h.trace_id.Display()
    requires h.parent_id.Some? ==> ';' !in h.parent_id.value.Display()
    ensures forall i :: 0 <= i < |HeadLines(h)| ==> SplitSafe(HeadLines(h)[i])
  {
    SplitSafeJoined("Root=", h.trace_id.Display());
    var a := [RootLine(h)];
    if h.parent_id.Some? {
      SplitSafeJoined("Parent=", h.parent_id.value.Display());
    }
    SplitSafeAppend(a, ParentLines(h));
    DecisionLinesSafe(h.sampling_decision);
    SplitSafeAppend(a + ParentLines(h), DecisionLines(h));
  }

  lemma DecisionLinesSafe(d: SamplingDecision)
    ensures d != Unknown ==> SplitSafe(EncodeDecision(d))
  {
    if d != Unknown {
      var line := EncodeDecision(d);
      assert line == "Sampled=" + line[8..] && ';' !in line[8..];
      SplitSafeJoined("Sampled=", line[8..]);
    }
  }

  lemma DataLinesSafe(m: map<string, string>, order: seq<string>)
    requires forall i :: 0 <= i < |order| ==> order[i] in m
    requires forall k :: k in m ==> IsPlainKey(k) && ';' !in m[k]
    ensures forall i :: 0 <= i < |order| ==> SplitSafe(DataLines(m, order)[i])
  {
    var data := DataLines(m, order);
    forall i | 0 <= i < |data| ensures SplitSafe(data[i]) {
      SplitSafeJoined(order[i] + "=", m[order[i]]);
    }
  }

  /** Read field by field, the formatted fields give back the header's texts and data. */
  lemma FieldLinesRead(h: Header, order: seq<string>, key: string)
    requires Enumerates(order, h.additional_data)
    requires Propagatable(h)
    ensures RootOf(FieldLines(h, order), TraceId.Rendered("")) == AsReceived(h).trace_id
    ensures ParentOf(FieldLines(h, order), None) == AsReceived(h).parent_id
    ensures DecisionOf(FieldLines(h, order), Unknown) == h.sampling_decision
    ensures LastValue(FieldLines(h, order), key) == Lookup(h.additional_data, key)
  {
    var a := [RootLine(h)];
    var b := a + ParentLines(h);
    var c := b + DecisionLines(h);
    var data := DataLines(h.additional_data, order);
    RootLineRead(h, key);
    ParentLinesRead(h, key);
    DecisionLinesRead(h, key);
    DataLinesRead(h.additional_data, order, key);
    LastWithPrefixAppend(a, ParentLines(h), "Root=");
    LastWithPrefixAppend(b, DecisionLines(h), "Root=");
    LastWithPrefixAppend(c, data, "Root=");
    LastWithPrefixAppend(a, ParentLines(h), "Parent=");
    LastWithPrefixAppend(b, DecisionLines(h), "Parent=");
    LastWithPrefixAppend(c, data, "Parent=");
    LastWithPrefixAppend(a, ParentLines(h), "Sampled=");
    LastWithPrefixAppend(b, DecisionLines(h), "Sampled=");
    LastWithPrefixAppend(c, data, "Sampled=");
    LastValueAppend(a, ParentLines(h), key);
    LastValueAppend(b, DecisionLines(h), key);
    LastValueAppend(c, data, key);
  }

  /** The formatted text splits back into exactly the formatted fields. */
  lemma SplitFormat(h: Header, order: seq<string>)
    requires Enumerates(order, h.additional_data)
    requires Propagatable(h)
    ensures Split(Format(h, order), ';') == FieldLines(h, order)
    ensures forall i :: 0 <= i < |FieldLines(h, order)| ==> '=' in FieldLines(h, order)[i]
  {
    FieldLinesShape(h, order);
    SplitJoin(FieldLines(h, order), ';');
  }

  /**
    A parse whose fields all carry `=` and read, field by field, as `expected`
    (with the extension map agreeing key by key) yields `expected`.
   */
  lemma ParseReads(s: string, now: Seconds, random: Bytes12, expected: Header)
    requires forall i :: 0 <= i < |Split(s, ';')| ==> '=' in Split(s, ';')[i]
    requires RootOf(Split(s, ';'), NewTraceId(now, random)) == expected.trace_id
    requires ParentOf(Split(s, ';'), None) == expected.parent_id
    requires DecisionOf(Split(s, ';'), Unknown) == expected.sampling_decision
    requires forall k :: LastValue(Split(s, ';'), k) == Lookup(expected.additional_data, k)
    ensures Parse(s, now, random) == Success(expected)
  {
    var v := Parse(s, now, random).value;
    assert v.additional_data == expected.additional_data;
  }

  /**
    Formatting a header and parsing the text back gives the header a receiver
    sees: the same id texts, decision and extension data.
   */
  lemma ParseFormat(h: Header, order: seq<string>, now: Seconds, random: Bytes12)
    requires Enumerates(order, h.additional_data)
    requires Propagatable(h)
    ensures Parse(Format(h, order), now, random) == Success(AsReceived(h))
  {
    var lines := FieldLines(h, order);
    SplitFormat(h, order);
    FieldLinesRead(h, order, "");
    forall k ensures LastValue(lines, k) == Lookup(h.additional_data, k) {
      FieldLinesRead(h, order, k);
    }
    ParseReads(Format(h, order), now, random, AsReceived(h));
  }

  /** Formatting what a receiver rebuilt gives the original text back. */
  lemma FormatAsReceived(h: Header, order: seq<string>)
    requires Enumerates(order, h.additional_data)
    ensures Format(AsReceived(h), order) == Format(h, order)
  {
  }

  /** Format, parse, format: the second formatting reproduces the first. */
  lemma FormatParseFormat(h: Header, order: seq<string>, now: Seconds, random: Bytes12)
    requires Enumerates(order, h.additional_data)
    requires Propagatable(h)
    ensures var r := Parse(Format(h, order), now, random);
      && r.Success?
      && r.value.additional_data == h.additional_data
      && Format(r.value, order) == Format(h, order)
  {
    ParseFormat(h, order, now, random);
    FormatAsReceived(h, order);
  }
}
