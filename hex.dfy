/**
  The byte-to-text encoder `toHex` of src/App.js, which renders a message
  signature for the log, and a decoder that inverts it.
 */
module Hex {
  import opened Wrappers

  /** One element of a byte buffer (a Uint8Array or a Buffer): an integer in [0, 256). */
  type Byte = x: int | 0 <= x < 256

  /** A lower-case base-16 digit, as Number.prototype.toString(16) writes them. */
  predicate IsHexDigit(c: char) {
    '0' <= c <= '9' || 'a' <= c <= 'f'
  }

  /** The value of a lower-case base-16 digit; None for every other character. */
  function HexValue(c: char): (r: Option<nat>)
    ensures r.Some? <==> IsHexDigit(c)
    ensures r.Some? ==> r.value < 16
  {
    if '0' <= c <= '9' then Some(c as int - '0' as int)
    else if 'a' <= c <= 'f' then Some(c as int - 'a' as int + 10)
    else None
  }

  /** The digit for a value below 16. */
  function HexDigit(d: nat): (c: char)
    requires d < 16
    ensures IsHexDigit(c)
    ensures HexValue(c) == Some(d)
  {
    if d < 10 then ('0' as int + d) as char else ('a' as int + (d - 10)) as char
  }

  /** Every lower-case digit is the digit of its value. */
  lemma HexDigitOfValue(c: char)
    requires IsHexDigit(c)
    ensures HexDigit(HexValue(c).value) == c
  {
  }

  /** `x.toString(16)` for a non-negative integer: its base-16 digits, most significant first, without leading zeros. */
  function ToString16(x: nat): (r: string)
    ensures |r| >= 1
    ensures x < 16 <==> |r| == 1
    ensures x < 256 ==> |r| <= 2
    ensures forall i :: 0 <= i < |r| ==> IsHexDigit(r[i])
  {
    if x < 16 then [HexDigit(x)] else ToString16(x / 16) + [HexDigit(x % 16)]
  }

  /**
    `s.slice(-n)`: the last n characters of s, or the whole of s when it is
    shorter. For n = 0 the argument is -0, which slice reads as start 0, so
    the whole of s is kept.
   */
  function SliceLast(s: string, n: nat): (r: string)
    ensures |r| == if n == 0 || |s| < n then |s| else n
    ensures s == s[..|s| - |r|] + r
  {
    if n == 0 || |s| < n then s else s[|s| - n..]
  }

  /** The text one byte contributes: `('00' + x.toString(16)).slice(-2)`. */
  function ByteToHex(x: Byte): (r: string)
    ensures |r| == 2 && IsHexDigit(r[0]) && IsHexDigit(r[1])
  {
    var padded := "00" + ToString16(x);
    assert forall i :: 0 <= i < |padded| ==> IsHexDigit(padded[i]);
    SliceLast(padded, 2)
  }

  /** `toHex`: every byte through ByteToHex, joined with the empty separator. */
  function ToHex(bytes: seq<Byte>): (r: string)
    ensures |r| == 2 * |bytes|
    ensures forall k :: 0 <= k < |r| ==> IsHexDigit(r[k])
  {
    if bytes == [] then "" else ByteToHex(bytes[0]) + ToHex(bytes[1..])
  }

  /** Each byte becomes exactly two lower-case digits, high nibble first, zero-padded (0x0a gives "0a"). */
  lemma ByteToHexDigits(x: Byte)
    ensures ByteToHex(x) == [HexDigit(x / 16), HexDigit(x % 16)]
  {
    var s := ToString16(x);
    if x < 16 {
      assert s == [HexDigit(x)];
      assert "00" + s == ['0', '0', HexDigit(x)];
      assert HexDigit(0) == '0';
    } else {
      assert ToString16(x / 16) == [HexDigit(x / 16)];
      assert s == [HexDigit(x / 16), HexDigit(x % 16)];
    }
  }

  /** Byte i of the input occupies characters 2i and 2i+1 of the encoding. */
  lemma {:induction false} ToHexAt(bytes: seq<Byte>, i: nat)
    requires i < |bytes|
    ensures |ToHex(bytes)| == 2 * |bytes|
    ensures ToHex(bytes)[2 * i] == HexDigit(bytes[i] / 16)
    ensures ToHex(bytes)[2 * i + 1] == HexDigit(bytes[i] % 16)
  {
    ByteToHexDigits(bytes[0]);
    if i > 0 {
      ToHexAt(bytes[1..], i - 1);
    }
  }

  /** Reads consecutive pairs of lower-case digits back into bytes; None when the length is odd or a character is not such a digit. */
  function FromHex(s: string): (r: Option<seq<Byte>>)
    ensures r.Some? ==> 2 * |r.value| == |s|
  {
    if s == [] then Some([])
    else if |s| < 2 then None
    else
      match (HexValue(s[0]), HexValue(s[1]), FromHex(s[2..]))
      case (Some(hi), Some(lo), Some(rest)) => Some([hi * 16 + lo] + rest)
      case _ => None
  }

  /** Decoding the encoding gives back the input. */
  lemma {:induction false} FromHexToHex(bytes: seq<Byte>)
    ensures FromHex(ToHex(bytes)) == Some(bytes)
  {
    if bytes != [] {
      var b := bytes[0];
      var s := ToHex(bytes);
      ByteToHexDigits(b);
      FromHexToHex(bytes[1..]);
      assert s == [HexDigit(b / 16), HexDigit(b % 16)] + ToHex(bytes[1..]);
      assert s[2..] == ToHex(bytes[1..]);
      assert (b / 16) * 16 + b % 16 == b;
      assert [b] + bytes[1..] == bytes;
    }
  }

  /** Every text the decoder accepts is the encoding of what it decodes to. */
  lemma {:induction false} ToHexFromHex(s: string, bytes: seq<Byte>)
    requires FromHex(s) == Some(bytes)
    ensures ToHex(bytes) == s
  {
    if s != [] {
      var hi, lo := HexValue(s[0]).value, HexValue(s[1]).value;
      var b := hi * 16 + lo;
      assert bytes[0] == b;
      ToHexFromHex(s[2..], bytes[1..]);
      ByteToHexDigits(b);
      assert b / 16 == hi && b % 16 == lo;
      HexDigitOfValue(s[0]);
      HexDigitOfValue(s[1]);
      assert s == [s[0], s[1]] + s[2..];
    }
  }

  /** Distinct byte sequences have distinct encodings. */
  lemma ToHexInjective(a: seq<Byte>, b: seq<Byte>)
    requires ToHex(a) == ToHex(b)
    ensures a == b
  {
    FromHexToHex(a);
    FromHexToHex(b);
  }
}
