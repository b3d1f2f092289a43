/**
  Laws of the header parser as a fold over fields, and the header texts of
  the shapes of header text the crate's tests exercise.
 */
module HeaderLaws {
  import opened Wrappers
  import opened Text
  import opened Time
  import opened Ids
  import opened Headers

  /** The fold over two runs of fields is the fold over the first, continued with the second. */
  lemma {:induction false} FoldAppend(h: Header, a: seq<string>, b: seq<string>, s: string)
    ensures FoldFields(h, a + b, s) ==
      match FoldFields(h, a, s)
      case Success(h') => FoldFields(h', b, s)
      case Failure(e) => Failure(e)
    decreases |a|
  {
    if |a| > 0 {
      assert (a + b)[0] == a[0] && (a + b)[1..] == a[1..] + b;
      match ApplyField(h, a[0], s)
      case Failure(e) =>
      case Success(h') => FoldAppend(h', a[1..], b, s);
    } else {
      assert a + b == b;
    }
  }

  /** The empty header text is one empty field, which has no `=`. */
  lemma EmptyHeaderFails(now: Seconds, random: Bytes12)
    ensures Parse("", now, random) == Failure(ParseError(""))
  {
    assert Split("", ';') == [""];
  }

  /** `Parse` is the fold of the split text into the default header. */
  lemma ParseIsFold(s: string, now: Seconds, random: Bytes12)
    ensures Parse(s, now, random) == FoldFields(DefaultHeader(now, random), Split(s, ';'), s)
  {
  }

  /** The header text only enters the error message: successes do not depend on it. */
  lemma {:induction false} FoldSameText(h: Header, lines: seq<string>, s: string, s': string)
    requires FoldFields(h, lines, s).Success?
    ensures FoldFields(h, lines, s') == FoldFields(h, lines, s)
    decreases |lines|
  {
    if |lines| > 0 {
      FoldSameText(ApplyField(h, lines[0], s).value, lines[1..], s, s');
    }
  }

  /** A fold over a single field is that field's step. */
  lemma FoldOne(h: Header, line: string, s: string)
    ensures FoldFields(h, [line], s) == ApplyField(h, line, s)
  {
    var one: seq<string> := [line];
    assert one[1..] == [];
  }

  /** The fold outcome of one run of fields, read under another header text. */
  lemma FoldOtherText(h: Header, lines: seq<string>, s: string, s': string)
    ensures FoldFields(h, lines, s').Success? <==> FoldFields(h, lines, s).Success?
    ensures FoldFields(h, lines, s).Success? ==> FoldFields(h, lines, s') == FoldFields(h, lines, s)
  {
    FoldFailure(h, lines, s);
    FoldFailure(h, lines, s');
    if FoldFields(h, lines, s).Success? {
      FoldSameText(h, lines, s, s');
    }
  }

  /**
    The parser is incremental: parsing `s;line` is parsing `s` and then
    applying the one extra field, and a failure of `s` is a failure of the
    whole text.
   */
  lemma ParseAppendField(s: string, line: string, now: Seconds, random: Bytes12)
    requires ';' !in line
    ensures Parse(s + ";" + line, now, random) ==
      if Parse(s, now, random).Failure? then Failure(ParseError(s + ";" + line))
      else ApplyField(Parse(s, now, random).value, line, s + ";" + line)
  {
    var whole := s + ";" + line;
    var h := DefaultHeader(now, random);
    var lines := Split(s, ';');
    assert whole == s + [';'] + line;
    SplitAppend(s, line, ';');
    ParseIsFold(whole, now, random);
    ParseIsFold(s, now, random);
    FoldAppend(h, lines, [line], whole);
    FoldOtherText(h, lines, s, whole);
    FoldFailure(h, lines, whole);
    if FoldFields(h, lines, s).Success? {
      FoldOne(FoldFields(h, lines, s).value, line, whole);
    }
  }

  /** `Self=t` is recognised as reserved and leaves the header as it is. */
  lemma SelfFieldKeeps(h: Header, t: string, s: string)
    ensures ApplyField(h, "Self=" + t, s) == Success(h)
  {
    var u := "Self=" + t;
    assert u[..5] == "Self=";
    assert u[0] == 'S' && u[1] == 'e';
  }

  /** `Self=t` has no `;` when `t` has none. */
  lemma SelfFieldSafe(t: string)
    requires ';' !in t
    ensures ';' !in "Self=" + t
  {
    var u := "Self=" + t;
    assert forall i :: 0 <= i < |u| ==> u[i] == if i < 5 then "Self="[i] else t[i - 5];
  }

  /** A trailing `Self=` field is recognised and dropped: the result is as if it were absent. */
  lemma SelfFieldDropped(s: string, t: string, now: Seconds, random: Bytes12)
    requires ';' !in t
    ensures Parse(s + ";Self=" + t, now, random).Success? <==> Parse(s, now, random).Success?
    ensures Parse(s, now, random).Success? ==> Parse(s + ";Self=" + t, now, random) == Parse(s, now, random)
  {
    SelfFieldSafe(t);
    assert s + ";Self=" + t == s + ";" + ("Self=" + t);
    ParseAppendField(s, "Self=" + t, now, random);
    if Parse(s, now, random).Success? {
      SelfFieldKeeps(Parse(s, now, random).value, t, s + ";Self=" + t);
    }
  }

  /** A later `Root=` field replaces the trace id and nothing else. */
  lemma LaterRootWins(s: string, b: string, now: Seconds, random: Bytes12)
    requires ';' !in b
    ensures Parse(s + ";Root=" + b, now, random).Success? <==> Parse(s, now, random).Success?
    ensures Parse(s, now, random).Success? ==>
      Parse(s + ";Root=" + b, now, random) == Success(Parse(s, now, random).value.(trace_id := TraceId.Rendered(b)))
  {
    var line := "Root=" + b;
    assert forall i :: 0 <= i < |line| ==> line[i] == if i < 5 then "Root="[i] else b[i - 5];
    assert s + ";Root=" + b == s + ";" + line;
    ParseAppendField(s, line, now, random);
    assert line[..5] == "Root=" && line[5..] == b;
  }

  /**
    An extension field `k=v` is cut at its first `=` only, so the value keeps
    any further `=`; a later field for the same key replaces the value.
   */
  lemma ExtensionField(s: string, k: string, v: string, now: Seconds, random: Bytes12)
    requires IsPlainKey(k) && ';' !in v
    ensures Parse(s + ";" + k + "=" + v, now, random).Success? <==> Parse(s, now, random).Success?
    ensures Parse(s, now, random).Success? ==>
      Parse(s + ";" + k + "=" + v, now, random) == Success(WithData(Parse(s, now, random).value, k, v))
  {
    var line := k + "=" + v;
    assert forall i :: 0 <= i < |line| ==> line[i] == if i < |k| then k[i] else if i == |k| then '=' else v[i - |k| - 1];
    assert s + ";" + k + "=" + v == s + ";" + line;
    ParseAppendField(s, line, now, random);
    PlainKeyLine(k, v);
  }

  /** A field without `=` makes the whole parse fail instead of being skipped. */
  lemma FieldWithoutEquals(s: string, t: string, now: Seconds, random: Bytes12)
    requires ';' !in t && '=' !in t
    ensures Parse(s + ";" + t, now, random) == Failure(ParseError(s + ";" + t))
  {
    ParseAppendField(s, t, now, random);
  }

  /**
    The shape of the crate's first parsing test: a root, a parent and a
    sampled flag come back as received texts, and format back to the same text.
   */
  lemma ParseWithParent(root: string, parent: string, now: Seconds, random: Bytes12)
    requires ';' !in root && ';' !in parent
    ensures var h := Header(TraceId.Rendered(root), Some(SegmentId.Rendered(parent)), Sampled, map[]);
      && Parse("Root=" + root + ";Parent=" + parent + ";Sampled=1", now, random) == Success(h)
      && Format(h, []) == "Root=" + root + ";Parent=" + parent + ";Sampled=1"
  {
    var h := Header(TraceId.Rendered(root), Some(SegmentId.Rendered(parent)), Sampled, map[]);
    assert Format(h, []) == "Root=" + root + ";Parent=" + parent + ";Sampled=1";
    ParseFormat(h, [], now, random);
  }

  /** The shape of the crate's second parsing test: without a `Parent=` field there is no parent. */
  lemma ParseWithoutParent(root: string, now: Seconds, random: Bytes12)
    requires ';' !in root
    ensures Parse("Root=" + root + ";Sampled=1", now, random)
      == Success(Header(TraceId.Rendered(root), None, Sampled, map[]))
  {
    var h := Header(TraceId.Rendered(root), None, Sampled, map[]);
    assert Format(h, []) == "Root=" + root + ";Sampled=1";
    ParseFormat(h, [], now, random);
  }

  /** The shape of the crate's formatting test: a header with only a trace id is its `Root=` field. */
  lemma FormatRootOnly(root: string)
    ensures Format(NewHeader(TraceId.Rendered(root)), []) == "Root=" + root
  {
  }
}
