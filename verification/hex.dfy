/**
  Lowercase hexadecimal text: the `Bytes` lower-hex wrapper (`{:02x}` per byte)
  and the `{:x}` / `{:08x}` formatting of an integer used inside trace ids.
 */
module Hex {
  import opened Wrappers
  import opened Ints

  predicate IsHexChar(c: char)
  {
    '0' <= c <= '9' || 'a' <= c <= 'f'
  }

  predicate IsLowerHex(s: string)
  {
    forall i :: 0 <= i < |s| ==> IsHexChar(s[i])
  }

  /** The lowercase digit for `n`. */
  function Digit(n: nat): (c: char)
    requires n < 16
    ensures IsHexChar(c)
    ensures DigitValue(c) == n
  {
    if n < 10 then ('0' as int + n) as char else ('a' as int + n - 10) as char
  }

  /** The value of one lowercase digit. */
  function DigitValue(c: char): (n: nat)
    requires IsHexChar(c)
    ensures n < 16
  {
    if c <= '9' then c as int - '0' as int else c as int - 'a' as int + 10
  }

  lemma DigitOfValue(c: char)
    requires IsHexChar(c)
    ensures Digit(DigitValue(c)) == c
  {
  }

  /** `{:02x}` of one byte: two zero-padded lowercase digits, high nibble first. */
  function ByteHex(b: byte): (r: string)
    ensures |r| == 2 && IsLowerHex(r)
    ensures DigitValue(r[0]) * 16 + DigitValue(r[1]) == b
  {
    [Digit(b / 16), Digit(b % 16)]
  }

  /** `{:x}` of `Bytes(bs)`: each byte's two digits, concatenated in order. */
  function LowerHex(bs: seq<byte>): (r: string)
    ensures |r| == 2 * |bs|
    ensures IsLowerHex(r)
    ensures forall i :: 0 <= i < |bs| ==> r[2 * i..2 * i + 2] == ByteHex(bs[i])
  {
    if |bs| == 0 then ""
    else
      var rest := LowerHex(bs[1..]);
      var r := ByteHex(bs[0]) + rest;
      assert forall i :: 1 <= i < |bs| ==> r[2 * i..2 * i + 2] == rest[2 * (i - 1)..2 * (i - 1) + 2];
      r
  }

  /** Reads lowercase hex text back as bytes, two digits per byte. */
  function ParseLowerHex(s: string): (r: Option<seq<byte>>)
    ensures r.Some? ==> 2 * |r.value| == |s|
    decreases |s|
  {
    if |s| == 0 then Some([])
    else if |s| == 1 || !IsHexChar(s[0]) || !IsHexChar(s[1]) then None
    else
      match ParseLowerHex(s[2..])
      case None => None
      case Some(rest) => Some([(DigitValue(s[0]) * 16 + DigitValue(s[1])) as byte] + rest)
  }

  /** The byte text decodes back to the bytes it was made from. */
  lemma {:induction false} ParseLowerHexOfLowerHex(bs: seq<byte>)
    ensures ParseLowerHex(LowerHex(bs)) == Some(bs)
  {
    if |bs| > 0 {
      var s := LowerHex(bs);
      assert s[2..] == LowerHex(bs[1..]);
      ParseLowerHexOfLowerHex(bs[1..]);
      assert [bs[0]] + bs[1..] == bs;
    }
  }

  /** Two digits decode to the byte whose `{:02x}` they are. */
  lemma ByteHexOfDigits(c0: char, c1: char)
    requires IsHexChar(c0) && IsHexChar(c1)
    ensures 0 <= DigitValue(c0) * 16 + DigitValue(c1) < 0x100
    ensures ByteHex((DigitValue(c0) * 16 + DigitValue(c1)) as byte) == [c0, c1]
  {
    var hi := DigitValue(c0);
    var lo := DigitValue(c1);
    var b := hi * 16 + lo;
    assert b / 16 == hi && b % 16 == lo;
    DigitOfValue(c0);
    DigitOfValue(c1);
  }

  /** Any text the decoder accepts is exactly the text of the decoded bytes. */
  lemma {:induction false} LowerHexOfParseLowerHex(s: string)
    requires ParseLowerHex(s).Some?
    ensures LowerHex(ParseLowerHex(s).value) == s
    decreases |s|
  {
    if |s| > 0 {
      var bs := ParseLowerHex(s).value;
      LowerHexOfParseLowerHex(s[2..]);
      assert bs[1..] == ParseLowerHex(s[2..]).value;
      ByteHexOfDigits(s[0], s[1]);
      assert ByteHex(bs[0]) == s[..2];
      assert s == s[..2] + s[2..];
    }
  }

  /** Two byte strings with the same text are equal. */
  lemma LowerHexInjective(a: seq<byte>, b: seq<byte>)
    requires LowerHex(a) == LowerHex(b)
    ensures a == b
  {
    ParseLowerHexOfLowerHex(a);
    ParseLowerHexOfLowerHex(b);
  }

  /** The value of a digit string, most significant digit first. */
  function HexValue(s: string): nat
    requires IsLowerHex(s)
  {
    if |s| == 0 then 0 else HexValue(s[..|s| - 1]) * 16 + DigitValue(s[|s| - 1])
  }

  function Pow16(k: nat): (r: nat)
    ensures r >= 1
  {
    if k == 0 then 1 else 16 * Pow16(k - 1)
  }

  /** `{:x}` of an integer: the shortest digit string, `"0"` for zero. */
  function NatHex(n: nat): (r: string)
    ensures |r| >= 1 && IsLowerHex(r)
    ensures HexValue(r) == n
    ensures r[0] == '0' ==> n == 0
  {
    if n < 16 then [Digit(n)]
    else
      var r := NatHex(n / 16) + [Digit(n % 16)];
      assert r[..|r| - 1] == NatHex(n / 16);
      r
  }

  /** The shortest form fits in `k` digits exactly when the value is below `16^k`. */
  lemma {:induction false} NatHexLength(n: nat, k: nat)
    requires k >= 1
    ensures |NatHex(n)| <= k <==> n < Pow16(k)
  {
    if n >= 16 {
      if k == 1 {
        assert |NatHex(n)| == |NatHex(n / 16)| + 1;
      } else {
        NatHexLength(n / 16, k - 1);
        assert n / 16 < Pow16(k - 1) <==> n < 16 * Pow16(k - 1);
      }
    }
  }

  function Zeros(k: nat): (r: string)
    ensures |r| == k && IsLowerHex(r)
    ensures forall i :: 0 <= i < k ==> r[i] == '0'
  {
    if k == 0 then "" else "0" + Zeros(k - 1)
  }

  /** Leading zeros do not change the value of a digit string. */
  lemma {:induction false} HexValueZeros(k: nat, s: string)
    requires IsLowerHex(s)
    ensures HexValue(Zeros(k) + s) == HexValue(s)
    decreases |s|, k
  {
    if |s| == 0 {
      assert Zeros(k) + s == Zeros(k);
      if k > 0 {
        assert Zeros(k)[..k - 1] == Zeros(k - 1);
        HexValueZeros(k - 1, "");
        assert Zeros(k - 1) + "" == Zeros(k - 1);
      }
    } else {
      var t := Zeros(k) + s;
      assert t[..|t| - 1] == Zeros(k) + s[..|s| - 1];
      HexValueZeros(k, s[..|s| - 1]);
    }
  }

  /**
    `{:0wx}` of an integer: the shortest form, left-padded with zeros to at
    least `width` digits. The width is a minimum; longer forms are not cut.
   */
  function PadHex(n: nat, width: nat): (r: string)
    ensures IsLowerHex(r) && HexValue(r) == n
    ensures |r| == if |NatHex(n)| < width then width else |NatHex(n)|
  {
    var digits := NatHex(n);
    if |digits| < width then
      HexValueZeros(width - |digits|, digits);
      Zeros(width - |digits|) + digits
    else digits
  }

  /** `{:08x}` gives exactly eight digits if and only if the value is below 2^32. */
  lemma PadHex8Length(n: nat)
    ensures |PadHex(n, 8)| >= 8
    ensures |PadHex(n, 8)| == 8 <==> n < U32_LIMIT
    ensures n >= U32_LIMIT ==> PadHex(n, 8)[0] != '0'
  {
    NatHexLength(n, 8);
    assert Pow16(8) == U32_LIMIT;
  }

  /** The formatting test of the byte wrapper: the bytes of `"test"` give `"74657374"`. */
  lemma LowerHexOfTest()
    ensures LowerHex([0x74, 0x65, 0x73, 0x74]) == "74657374"
  {
  }
}
