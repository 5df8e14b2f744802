/**
 * Go's `hex.DecodeString`: pairs of hexadecimal digits (either case) become
 * bytes; an odd length or a character that is not a hex digit is an error.
 * `EncodeToString` (lower case) is its inverse and is used only to state
 * the round trip.
 */
module Hex {
  import opened Wrappers

  /** A Go `byte`. */
  type Byte = b: int | 0 <= b < 256

  predicate IsHexDigit(ch: char)
  {
    '0' <= ch <= '9' || 'a' <= ch <= 'f' || 'A' <= ch <= 'F'
  }

  predicate AllHexDigits(s: string)
  {
    forall k :: 0 <= k < |s| ==> IsHexDigit(s[k])
  }

  /** The value of one hex digit. */
  function DigitValue(ch: char): (v: int)
    requires IsHexDigit(ch)
    ensures 0 <= v < 16
  {
    if '0' <= ch <= '9' then ch as int - '0' as int
    else if 'a' <= ch <= 'f' then ch as int - 'a' as int + 10
    else ch as int - 'A' as int + 10
  }

  /** The lower-case digit for a value below 16. */
  function DigitChar(v: int): (ch: char)
    requires 0 <= v < 16
    ensures IsHexDigit(ch) && DigitValue(ch) == v
  {
    if v < 10 then ('0' as int + v) as char
    else ('a' as int + v - 10) as char
  }

  /** The byte spelled by the two digits `hi` and `lo`. */
  function PairValue(hi: char, lo: char): Byte
    requires IsHexDigit(hi) && IsHexDigit(lo)
  {
    DigitValue(hi) * 16 + DigitValue(lo)
  }

  function DecodeString(s: string): (r: Option<seq<Byte>>)
    ensures r.Some? <==> |s| % 2 == 0 && AllHexDigits(s)
    ensures r.Some? ==> |r.value| == |s| / 2
  {
    if |s| == 0 then Some([])
    else if |s| == 1 || !IsHexDigit(s[0]) || !IsHexDigit(s[1]) then None
    else
      match DecodeString(s[2..])
      case None =>
        assert |s[2..]| % 2 == |s| % 2;
        assert AllHexDigits(s) ==> AllHexDigits(s[2..]) by {
          if AllHexDigits(s) {
            forall k | 0 <= k < |s[2..]| ensures IsHexDigit(s[2..][k]) {
              assert s[2..][k] == s[k + 2];
            }
          }
        }
        None
      case Some(rest) =>
        Some([PairValue(s[0], s[1])] + rest)
  }

  /** Byte k of a decoded string is the value of its k-th pair of digits. */
  lemma {:induction false} DecodeStringAt(s: string)
    requires DecodeString(s).Some?
    ensures var bytes := DecodeString(s).value;
      forall k :: 0 <= k < |bytes| ==> bytes[k] == PairValue(s[2 * k], s[2 * k + 1])
    decreases |s|
  {
    if |s| > 0 {
      var bytes := DecodeString(s).value;
      DecodeStringAt(s[2..]);
      forall k | 0 < k < |bytes|
        ensures bytes[k] == PairValue(s[2 * k], s[2 * k + 1])
      {
        assert bytes[k] == DecodeString(s[2..]).value[k - 1];
        assert s[2 * k] == s[2..][2 * (k - 1)] && s[2 * k + 1] == s[2..][2 * (k - 1) + 1];
      }
    }
  }

  function EncodeToString(bytes: seq<Byte>): (s: string)
    ensures |s| == 2 * |bytes|
    ensures AllHexDigits(s)
  {
    if bytes == [] then ""
    else [DigitChar(bytes[0] / 16), DigitChar(bytes[0] % 16)] + EncodeToString(bytes[1..])
  }

  /** Decoding the encoding gives the bytes back. */
  lemma {:induction false} DecodeEncode(bytes: seq<Byte>)
    ensures DecodeString(EncodeToString(bytes)) == Some(bytes)
  {
    if bytes != [] {
      var b := bytes[0];
      var s := EncodeToString(bytes);
      assert s[0] == DigitChar(b / 16) && s[1] == DigitChar(b % 16);
      assert s[2..] == EncodeToString(bytes[1..]);
      DecodeEncode(bytes[1..]);
      assert PairValue(s[0], s[1]) == b;
      assert [b] + bytes[1..] == bytes;
    }
  }
}
