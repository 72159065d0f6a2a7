/**
  The `%x` rendering of a key: every byte becomes two lowercase hexadecimal
  digits, high nibble first. The rendering is the file name of a cache entry,
  so it must be injective; this module proves that by giving its inverse.
 */
module Hex {
  import opened Wrappers
  import opened GoStrings

  /** '0'..'9' or 'a'..'f'. */
  predicate IsLowerHexDigit(c: byte)
  {
    0x30 <= c <= 0x39 || 0x61 <= c <= 0x66
  }

  /** The value of a lowercase hexadecimal digit; None for any other byte. */
  function DigitValue(c: byte): (v: Option<nat>)
    ensures v.Some? <==> IsLowerHexDigit(c)
    ensures v.Some? ==> v.value < 16
  {
    if 0x30 <= c <= 0x39 then Some(c as int - 0x30)
    else if 0x61 <= c <= 0x66 then Some(c as int - 0x61 + 10)
    else None
  }

  /** The lowercase digit for a nibble. */
  function Digit(n: nat): (c: byte)
    requires n < 16
    ensures IsLowerHexDigit(c)
    ensures DigitValue(c) == Some(n)
  {
    if n < 10 then (0x30 + n) as byte else (0x61 + n - 10) as byte
  }

  /** `fmt.Sprintf("%x", s)` for a byte sequence. */
  function Hex(s: seq<byte>): (h: GoString)
    ensures |h| == 2 * |s|
    ensures forall i :: 0 <= i < |h| ==> IsLowerHexDigit(h[i])
  {
    if s == [] then []
    else [Digit(s[0] as int / 16), Digit(s[0] as int % 16)] + Hex(s[1..])
  }

  /** Parses lowercase hexadecimal back into bytes; None unless every digit pairs up. */
  function Unhex(h: GoString): (r: Option<seq<byte>>)
    ensures r.Some? ==> 2 * |r.value| == |h|
    decreases |h|
  {
    if h == [] then Some([])
    else if |h| == 1 then None
    else
      var hi, lo := DigitValue(h[0]), DigitValue(h[1]);
      if hi.None? || lo.None? then None
      else match Unhex(h[2..])
        case None => None
        case Some(rest) => Some([(hi.value * 16 + lo.value) as byte] + rest)
  }

  /** Byte i of the input is rendered at positions 2i (high nibble) and 2i+1 (low nibble). */
  lemma {:induction false} HexAt(s: seq<byte>, i: nat)
    requires i < |s|
    ensures Hex(s)[2 * i] == Digit(s[i] as int / 16)
    ensures Hex(s)[2 * i + 1] == Digit(s[i] as int % 16)
  {
    if i > 0 {
      HexAt(s[1..], i - 1);
    }
  }

  /** Parsing a rendering gives back the bytes it was made from. */
  lemma {:induction false} UnhexHex(s: seq<byte>)
    ensures Unhex(Hex(s)) == Some(s)
  {
    if s != [] {
      var h := Hex(s);
      var b := s[0] as int;
      assert h[2..] == Hex(s[1..]);
      UnhexHex(s[1..]);
      assert (b / 16) * 16 + b % 16 == b;
      assert [s[0]] + s[1..] == s;
    }
  }

  /** Distinct byte sequences never share a rendering. */
  lemma HexInjective(a: seq<byte>, b: seq<byte>)
    requires Hex(a) == Hex(b)
    ensures a == b
  {
    UnhexHex(a);
    UnhexHex(b);
  }
}
