/** UTF-16 as in sections 2.1 and 2.2 of RFC 2781. */
module Utf16 {
  import opened Wrappers

  type CodePoint = c: nat | c <= 0x10FFFF

  /** A Unicode scalar value; a text holds no surrogates. */
  type Scalar = c: nat | c < 0xD800 || 0xE000 <= c <= 0x10FFFF

  type Text = seq<Scalar>

  type Unit = u: nat | u < 0x10000

  /** One unit, or a high and a low surrogate with ten bits each. */
  function UnitsOf(c: CodePoint): (units: seq<Unit>)
    ensures c < 0x10000 ==> units == [c]
    ensures c >= 0x10000 ==>
      |units| == 2 &&
      var high: int, low: int := units[0], units[1];
      0xD800 <= high < 0xDC00 && 0xDC00 <= low < 0xE000 && c == 0x10000 + 0x400 * (high - 0xD800) + (low - 0xDC00)
  {
    if c < 0x10000 then [c] else [0xD800 + (c - 0x10000) / 0x400, 0xDC00 + (c - 0x10000) % 0x400]
  }

  function Encode(text: Text): seq<Unit> {
    if text == [] then [] else UnitsOf(text[0]) + Encode(text[1..])
  }

  /** None for a stream with a surrogate out of place. */
  function Decode(units: seq<Unit>): Option<Text> {
    if units == [] then Some([])
    else if units[0] < 0xD800 || units[0] > 0xDFFF then Prepend(units[0], Decode(units[1..]))
    else if units[0] > 0xDBFF || |units| == 1 || units[1] < 0xDC00 || units[1] > 0xDFFF then None
    else
      var high: nat, low: nat := units[0], units[1];
      Prepend(0x10000 + (high - 0xD800) * 0x400 + (low - 0xDC00), Decode(units[2..]))
  }

  function Prepend(c: Scalar, rest: Option<Text>): Option<Text> {
    if rest.None? then None else Some([c] + rest.value)
  }

  lemma {:induction false} DecodeEncode(text: Text)
    ensures Decode(Encode(text)) == Some(text)
  {
    if text != [] {
      var units, head := Encode(text), UnitsOf(text[0]);
      DecodeEncode(text[1..]);
      assert units[|head|..] == Encode(text[1..]);
      assert text == [text[0]] + text[1..];
    }
  }

  lemma EncodeIsInjective(a: Text, b: Text)
    requires Encode(a) == Encode(b)
    ensures a == b
  {
    DecodeEncode(a);
    DecodeEncode(b);
  }
}
