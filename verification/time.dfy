/**
  Timestamps. The crate keeps fractional epoch seconds in an `f64`; here the
  value is an exact `real` supplied by the caller (no clock is read).
 */
module Time {
  import opened Wrappers
  import opened Ints
  import opened Json

  /** Fractional seconds since the Unix epoch. */
  datatype Seconds = Seconds(value: real)

  /**
    `trunc() as u64`: drops the fractional part, and the cast saturates, so a
    negative time gives 0 and a time past the `u64` range gives its maximum.
   */
  function Trunc(s: Seconds): (r: u64)
    ensures 0.0 <= s.value < U64_LIMIT as real ==> r as real <= s.value < r as real + 1.0
    ensures s.value < 0.0 ==> r == 0
    ensures s.value >= U64_LIMIT as real ==> r == U64_LIMIT - 1
  {
    if s.value < 1.0 then 0
    else if s.value >= U64_LIMIT as real then U64_LIMIT - 1
    else s.value.Floor
  }

  /** Seconds are serialized as a JSON float. */
  function EncodeSeconds(s: Seconds): Json
  {
    JFloat(s.value)
  }

  /**
    The deserializer asks for an `f64` and its visitor only accepts floats, so
    a JSON integer such as `5` is rejected; its "expected" text says "a string
    value".
   */
  function DecodeSeconds(j: Json): (r: Result<Seconds, string>)
    ensures r.Success? <==> j.JFloat?
    ensures r.Success? ==> r.value.value == j.f
  {
    if j.JFloat? then Success(Seconds(j.f)) else Failure("invalid type: expected a string value")
  }

  lemma SecondsRoundTrip(s: Seconds)
    ensures DecodeSeconds(EncodeSeconds(s)) == Success(s)
    ensures forall n: int :: DecodeSeconds(JInt(n)).Failure?
  {
  }
}
