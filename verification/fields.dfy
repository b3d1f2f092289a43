/**
  Struct fields as JSON object members: what a derived serializer emits for a
  field under its skip rule, and how a derived deserializer reads a field
  back. Collections (`Vec`, `HashMap`) and the scalar types used by the
  segment document are here too.
 */
module Fields {
  import opened Wrappers
  import opened Ints
  import opened Json

  type Members = map<string, Json>

  /** The member under `key`, if the object has one. */
  function Get(m: Members, key: string): Option<Json>
  {
    if key in m then Some(m[key]) else None
  }

  // ---------------------------------------------------------------------------
  // Emitting members

  /** A field without a skip rule: always emitted. */
  function Put(m: Members, key: string, v: Json): (r: Members)
    ensures r.Keys == m.Keys + {key}
    ensures Get(r, key) == Some(v)
    ensures forall k :: k != key ==> Get(r, k) == Get(m, k)
  {
    m[key := v]
  }

  /** `skip_serializing_if = "Option::is_none"`: the member is emitted only for `Some`. */
  function PutOpt<T>(m: Members, key: string, o: Option<T>, enc: T -> Json): (r: Members)
    ensures r.Keys == if o.Some? then m.Keys + {key} else m.Keys
    ensures Get(r, key) == if o.Some? then Some(enc(o.value)) else Get(m, key)
    ensures forall k :: k != key ==> Get(r, k) == Get(m, k)
  {
    if o.Some? then m[key := enc(o.value)] else m
  }

  /** `skip_serializing_if = "Not::not"`: the member is emitted only for `true`. */
  function PutFlag(m: Members, key: string, b: bool): (r: Members)
    ensures r.Keys == if b then m.Keys + {key} else m.Keys
    ensures Get(r, key) == if b then Some(JBool(true)) else Get(m, key)
    ensures forall k :: k != key ==> Get(r, k) == Get(m, k)
  {
    if b then m[key := JBool(true)] else m
  }

  /** The member `PutFlag` emits for `b`, if any. */
  function Flag(b: bool): Option<Json>
  {
    if b then Some(JBool(true)) else None
  }

  /** An `Option` field with no skip rule: `null` stands for `None`. */
  function OptJson<T>(o: Option<T>, enc: T -> Json): Json
  {
    match o
    case Some(v) => enc(v)
    case None => JNull
  }

  /** The one-key set when `present`, else the empty set. */
  function KeyIf(present: bool, key: string): set<string>
  {
    if present then {key} else {}
  }

  // ---------------------------------------------------------------------------
  // Reading members

  function MissingField(key: string): string
  {
    "missing field `" + key + "`"
  }

  /** A field of type `Option<T>`: an absent member or `null` reads as `None`. */
  function ReadOpt<T>(v: Option<Json>, dec: Json -> Result<T, string>): (r: Result<Option<T>, string>)
    ensures v.None? || v == Some(JNull) ==> r == Success(None)
    ensures v.Some? && !v.value.JNull? ==> (r.Success? <==> dec(v.value).Success?)
    ensures r.Success? && r.value.Some? ==> v.Some? && dec(v.value) == Success(r.value.value)
  {
    match v
    case None => Success(None)
    case Some(j) =>
      if j.JNull? then Success(None)
      else
        var x :- dec(j);
        Success(Some(x))
  }

  /** A field of any other type: an absent member is the `missing field` error. */
  function ReadReq<T>(v: Option<Json>, key: string, dec: Json -> Result<T, string>): (r: Result<T, string>)
    ensures v.None? ==> r == Failure(MissingField(key))
    ensures v.Some? ==> r == dec(v.value)
  {
    match v
    case None => Failure(MissingField(key))
    case Some(j) => dec(j)
  }

  /** A field with `#[serde(default)]`: an absent member reads as `default`. */
  function ReadOr<T>(v: Option<Json>, dec: Json -> Result<T, string>, default: T): (r: Result<T, string>)
    ensures v.None? ==> r == Success(default)
    ensures v.Some? ==> r == dec(v.value)
  {
    match v
    case None => Success(default)
    case Some(j) => dec(j)
  }

  /** An optional member that reads: absent, `null`, or a value the field's decoder accepts. */
  predicate Readable<T>(m: Members, key: string, dec: Json -> Result<T, string>)
  {
    key !in m || m[key].JNull? || dec(m[key]).Success?
  }

  /** A required member that reads: present, and a value the field's decoder accepts. */
  predicate Present<T>(m: Members, key: string, dec: Json -> Result<T, string>)
  {
    key in m && dec(m[key]).Success?
  }

  /** An `Option` field of an object reads exactly when its member is readable. */
  lemma ReadOptReadable<T>(m: Members, key: string, dec: Json -> Result<T, string>)
    ensures ReadOpt(Get(m, key), dec).Success? <==> Readable(m, key, dec)
    ensures key !in m ==> ReadOpt(Get(m, key), dec) == Success(None)
  {
  }

  /**
    A required field of an object reads exactly when its member is present and
    accepted; a missing member is the `missing field` error, never a default.
   */
  lemma ReadReqPresent<T>(m: Members, key: string, dec: Json -> Result<T, string>)
    ensures ReadReq(Get(m, key), key, dec).Success? <==> Present(m, key, dec)
    ensures key !in m ==> ReadReq(Get(m, key), key, dec) == Failure(MissingField(key))
    ensures key in m ==> ReadReq(Get(m, key), key, dec) == dec(m[key])
  {
  }

  /** A skipped `false` flag reads back as `false` only when the field has a default. */
  lemma ReadFlag(b: bool, key: string)
    ensures ReadOr(Flag(b), DecodeBool, false) == Success(b)
    ensures ReadReq(Flag(b), key, DecodeBool) == if b then Success(true) else Failure(MissingField(key))
  {
  }

  /** Reading back an emitted optional member gives the option that was emitted. */
  lemma ReadOptOfPut<T>(m: Members, key: string, o: Option<T>, enc: T -> Json, dec: Json -> Result<T, string>)
    requires key !in m
    requires o.Some? ==> !enc(o.value).JNull? && dec(enc(o.value)) == Success(o.value)
    ensures ReadOpt(Get(PutOpt(m, key, o, enc), key), dec) == Success(o)
  {
  }

  /** An optional member as emitted on its own: present exactly for `Some`. */
  function Emitted<T>(o: Option<T>, enc: T -> Json): Option<Json>
  {
    if o.Some? then Some(enc(o.value)) else None
  }

  /** Reading back an emitted optional member gives the option. */
  lemma ReadOptEmitted<T>(o: Option<T>, enc: T -> Json, dec: Json -> Result<T, string>)
    requires o.Some? ==> !enc(o.value).JNull? && dec(enc(o.value)) == Success(o.value)
    ensures ReadOpt(Emitted(o, enc), dec) == Success(o)
  {
  }

  /** Reading back an `Option` emitted as value-or-`null` gives the option. */
  lemma ReadOptOfOptJson<T>(o: Option<T>, enc: T -> Json, dec: Json -> Result<T, string>)
    requires o.Some? ==> !enc(o.value).JNull? && dec(enc(o.value)) == Success(o.value)
    ensures ReadOpt(Some(OptJson(o, enc)), dec) == Success(o)
  {
  }

  /**
    A derived struct decoder's input: an object, or an array holding one item
    per field in declaration order. Anything else is a type error.
   */
  function StructMembers(j: Json, names: seq<string>, what: string): (r: Result<Members, string>)
    ensures r.Success? <==> j.JObject? || (j.JArray? && |j.items| == |names|)
    ensures j.JObject? ==> r == Success(j.fields)
    ensures j.JArray? && |j.items| == |names| ==> r == Success(ArrayMembers(names, j.items))
  {
    match j
    case JObject(fields) => Success(fields)
    case JArray(items) =>
      if |items| == |names| then Success(ArrayMembers(names, items))
      else Failure("invalid length " + "for " + what)
    case _ => Failure("invalid type: expected " + what)
  }

  /** The array form read as an object: the i-th item under the i-th field name. */
  function ArrayMembers(names: seq<string>, items: seq<Json>): (m: Members)
    requires |names| == |items|
    ensures m.Keys == set i | 0 <= i < |names| :: names[i]
  {
    if |names| == 0 then map[]
    else ArrayMembers(names[1..], items[1..])[names[0] := items[0]]
  }

  /** With distinct names, each field of the array form is its own item. */
  lemma {:induction false} ArrayMembersGet(names: seq<string>, items: seq<Json>, i: nat)
    requires |names| == |items| && i < |names|
    requires forall a, b :: 0 <= a < b < |names| ==> names[a] != names[b]
    ensures Get(ArrayMembers(names, items), names[i]) == Some(items[i])
    decreases |names|
  {
    if i > 0 {
      ArrayMembersGet(names[1..], items[1..], i - 1);
      assert names[0] != names[i];
    }
  }

  // ---------------------------------------------------------------------------
  // Scalars

  function EncodeString(s: string): Json
  {
    JString(s)
  }

  function DecodeString(j: Json): (r: Result<string, string>)
    ensures r.Success? <==> j.JString?
    ensures r.Success? ==> r.value == j.s
  {
    if j.JString? then Success(j.s) else Failure("invalid type: expected a string")
  }

  function EncodeBool(b: bool): Json
  {
    JBool(b)
  }

  function DecodeBool(j: Json): (r: Result<bool, string>)
    ensures r.Success? <==> j.JBool?
    ensures r.Success? ==> r.value == j.b
  {
    if j.JBool? then Success(j.b) else Failure("invalid type: expected a boolean")
  }

  function EncodeU64(n: u64): Json
  {
    JInt(n)
  }

  /** `u64`/`usize`: a JSON integer in range; floats and negative numbers are rejected. */
  function DecodeU64(j: Json): (r: Result<u64, string>)
    ensures r.Success? <==> j.JInt? && 0 <= j.i < U64_LIMIT
    ensures r.Success? ==> r.value == j.i
  {
    if j.JInt? && 0 <= j.i < U64_LIMIT then Success(j.i as u64) else Failure("invalid type: expected u64")
  }

  function EncodeU16(n: u16): Json
  {
    JInt(n)
  }

  function DecodeU16(j: Json): (r: Result<u16, string>)
    ensures r.Success? <==> j.JInt? && 0 <= j.i < U16_LIMIT
    ensures r.Success? ==> r.value == j.i
  {
    if j.JInt? && 0 <= j.i < U16_LIMIT then Success(j.i as u16) else Failure("invalid type: expected u16")
  }

  // ---------------------------------------------------------------------------
  // Collections

  /** `Vec<T>`: an array of the items' values, in order. */
  function EncodeSeq<T>(xs: seq<T>, enc: T -> Json): (r: Json)
    ensures r.JArray? && |r.items| == |xs|
    ensures forall i :: 0 <= i < |xs| ==> r.items[i] == enc(xs[i])
  {
    JArray(seq(|xs|, i requires 0 <= i < |xs| => enc(xs[i])))
  }

  function DecodeItems<T>(items: seq<Json>, dec: Json -> Result<T, string>): (r: Result<seq<T>, string>)
    ensures r.Success? <==> forall i :: 0 <= i < |items| ==> dec(items[i]).Success?
    ensures r.Success? ==> |r.value| == |items| && forall i :: 0 <= i < |items| ==> dec(items[i]) == Success(r.value[i])
  {
    if |items| == 0 then Success([])
    else
      var x :- dec(items[0]);
      var rest :- DecodeItems(items[1..], dec);
      assert forall i :: 1 <= i < |items| ==> items[i] == items[1..][i - 1];
      Success([x] + rest)
  }

  /** `Vec<T>`: only an array decodes, and only when every item does. */
  function DecodeSeq<T>(j: Json, dec: Json -> Result<T, string>): (r: Result<seq<T>, string>)
    ensures r.Success? <==> j.JArray? && forall i :: 0 <= i < |j.items| ==> dec(j.items[i]).Success?
    ensures r.Success? ==> |r.value| == |j.items| && forall i :: 0 <= i < |j.items| ==> dec(j.items[i]) == Success(r.value[i])
  {
    if j.JArray? then DecodeItems(j.items, dec) else Failure("invalid type: expected a sequence")
  }

  /** The items of a sequence come back in order when each item does. */
  lemma DecodeEncodeSeq<T>(xs: seq<T>, enc: T -> Json, dec: Json -> Result<T, string>)
    requires forall i :: 0 <= i < |xs| ==> dec(enc(xs[i])) == Success(xs[i])
    ensures DecodeSeq(EncodeSeq(xs, enc), dec) == Success(xs)
  {
    var j := EncodeSeq(xs, enc);
    assert forall i :: 0 <= i < |j.items| ==> dec(j.items[i]) == Success(xs[i]);
    var r := DecodeSeq(j, dec);
    assert r.Success?;
    assert r.value == xs;
  }

  /** `HashMap<String, T>`: an object of the entries' values. */
  function EncodeMap<T>(m: map<string, T>, enc: T -> Json): (r: Json)
    ensures r.JObject? && r.fields.Keys == m.Keys
    ensures forall k :: k in m ==> r.fields[k] == enc(m[k])
  {
    JObject(map k | k in m :: enc(m[k]))
  }

  /** `HashMap<String, T>`: only an object decodes, and only when every value does. */
  function DecodeMap<T>(j: Json, dec: Json -> Result<T, string>): (r: Result<map<string, T>, string>)
    ensures r.Success? <==> j.JObject? && forall k :: k in j.fields ==> dec(j.fields[k]).Success?
    ensures r.Success? ==> r.value.Keys == j.fields.Keys
    ensures r.Success? ==> forall k :: k in j.fields ==> dec(j.fields[k]) == Success(r.value[k])
  {
    if j.JObject? && forall k :: k in j.fields ==> dec(j.fields[k]).Success? then
      Success(map k | k in j.fields :: dec(j.fields[k]).value)
    else if j.JObject? then Failure("invalid value in map")
    else Failure("invalid type: expected a map")
  }

  /** The entries of a map come back when each value does. */
  lemma DecodeEncodeMap<T>(m: map<string, T>, enc: T -> Json, dec: Json -> Result<T, string>)
    requires forall k :: k in m ==> dec(enc(m[k])) == Success(m[k])
    ensures DecodeMap(EncodeMap(m, enc), dec) == Success(m)
  {
    var r := DecodeMap(EncodeMap(m, enc), dec);
    assert r.Success?;
    assert r.value == m;
  }
}
