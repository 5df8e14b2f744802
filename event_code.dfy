/**
 * The 64-bit button code of a broadcast event, assembled from the eight
 * bytes of its hex field. Byte positions are counted as bit-vectors because
 * shift amounts are.
 */
module EventCode {
  import Hex

  /** Byte `k` of `code`, counting from the least significant. */
  function ByteAt(code: bv64, k: bv64): bv8
    requires k < 8
  {
    ((code >> (8 * k)) & 0xFF) as bv8
  }

  /** Byte `k` of `c` if `k < n`, else zero. */
  function Masked(c: seq<Hex.Byte>, n: bv64, k: bv64): bv8
    requires |c| == 8 && k < 8
  {
    if k < n then c[k] as bv8 else 0
  }

  /** Only the zero byte becomes the zero 8-bit vector. */
  lemma ZeroBits(x: Hex.Byte)
    requires x as bv8 == 0
    ensures x == 0
  {
  }

  /** ... and an 8-bit vector survives the trip to a byte and back. */
  lemma BitsByte(b: bv8)
    ensures (b as int) as bv8 == b
  {
  }

  /** The bytes `c[0..n)` each ORed in at bit position `8 * k`. */
  function Prefix(c: seq<Hex.Byte>, n: bv64): bv64
    requires |c| == 8
  {
    (Masked(c, n, 0) as bv64)
    | ((Masked(c, n, 1) as bv64) << 8)
    | ((Masked(c, n, 2) as bv64) << 16)
    | ((Masked(c, n, 3) as bv64) << 24)
    | ((Masked(c, n, 4) as bv64) << 32)
    | ((Masked(c, n, 5) as bv64) << 40)
    | ((Masked(c, n, 6) as bv64) << 48)
    | ((Masked(c, n, 7) as bv64) << 56)
  }

  /** The intended code: the eight bytes read little-endian. */
  function AssembleCode(c: seq<Hex.Byte>): (code: bv64)
    requires |c| == 8
    ensures forall k: bv64 :: k < 8 ==> ByteAt(code, k) == c[k] as bv8
  {
    Prefix(c, 8)
  }

  /** The eight bytes of a code, least significant first. */
  function CodeBytes(code: bv64): (c: seq<Hex.Byte>)
    ensures |c| == 8
  {
    [ByteAt(code, 0) as int, ByteAt(code, 1) as int, ByteAt(code, 2) as int, ByteAt(code, 3) as int,
     ByteAt(code, 4) as int, ByteAt(code, 5) as int, ByteAt(code, 6) as int, ByteAt(code, 7) as int]
  }

  /** Two codes with the same eight bytes are equal. */
  lemma SameBytes(x: bv64, y: bv64)
    requires ByteAt(x, 0) == ByteAt(y, 0) && ByteAt(x, 1) == ByteAt(y, 1)
    requires ByteAt(x, 2) == ByteAt(y, 2) && ByteAt(x, 3) == ByteAt(y, 3)
    requires ByteAt(x, 4) == ByteAt(y, 4) && ByteAt(x, 5) == ByteAt(y, 5)
    requires ByteAt(x, 6) == ByteAt(y, 6) && ByteAt(x, 7) == ByteAt(y, 7)
    ensures x == y
  {
  }

  /** Assembling the bytes of a code gives the code back. */
  lemma AssembleCodeBytes(code: bv64)
    ensures AssembleCode(CodeBytes(code)) == code
  {
    var c := CodeBytes(code);
    var a := AssembleCode(c);
    BitsByte(ByteAt(code, 0));
    BitsByte(ByteAt(code, 1));
    BitsByte(ByteAt(code, 2));
    BitsByte(ByteAt(code, 3));
    BitsByte(ByteAt(code, 4));
    BitsByte(ByteAt(code, 5));
    BitsByte(ByteAt(code, 6));
    BitsByte(ByteAt(code, 7));
    assert ByteAt(a, 0) == c[0] as bv8 && ByteAt(a, 1) == c[1] as bv8;
    assert ByteAt(a, 2) == c[2] as bv8 && ByteAt(a, 3) == c[3] as bv8;
    assert ByteAt(a, 4) == c[4] as bv8 && ByteAt(a, 5) == c[5] as bv8;
    assert ByteAt(a, 6) == c[6] as bv8 && ByteAt(a, 7) == c[7] as bv8;
    SameBytes(a, code);
  }

  /** A zero code has only zero bytes. */
  lemma ZeroCodeBytes(c: seq<Hex.Byte>)
    requires |c| == 8 && AssembleCode(c) == 0
    ensures forall k :: 0 <= k < 8 ==> c[k] == 0
  {
    assert c[0] as bv8 == 0 && c[1] as bv8 == 0 && c[2] as bv8 == 0 && c[3] as bv8 == 0;
    assert c[4] as bv8 == 0 && c[5] as bv8 == 0 && c[6] as bv8 == 0 && c[7] as bv8 == 0;
    ZeroBits(c[0]); ZeroBits(c[1]); ZeroBits(c[2]); ZeroBits(c[3]);
    ZeroBits(c[4]); ZeroBits(c[5]); ZeroBits(c[6]); ZeroBits(c[7]);
  }

  /** Zero bytes assemble to a zero code. */
  lemma ZeroBytesCode(c: seq<Hex.Byte>)
    requires |c| == 8 && forall k :: 0 <= k < 8 ==> c[k] == 0
    ensures AssembleCode(c) == 0
  {
    assert Masked(c, 8, 0) == 0 && Masked(c, 8, 1) == 0 && Masked(c, 8, 2) == 0 && Masked(c, 8, 3) == 0;
    assert Masked(c, 8, 4) == 0 && Masked(c, 8, 5) == 0 && Masked(c, 8, 6) == 0 && Masked(c, 8, 7) == 0;
  }

  /** The intended code is zero only when every byte is. */
  lemma AssembleCodeZero(c: seq<Hex.Byte>)
    requires |c| == 8
    ensures AssembleCode(c) == 0 <==> forall k :: 0 <= k < 8 ==> c[k] == 0
  {
    if AssembleCode(c) == 0 {
      ZeroCodeBytes(c);
    }
    if forall k :: 0 <= k < 8 ==> c[k] == 0 {
      ZeroBytesCode(c);
    }
  }

  /** The accumulation loop with `|=`, as intended. */
  method AccumulateCode(c: seq<Hex.Byte>) returns (code: bv64)
    requires |c| == 8
    ensures code == AssembleCode(c)
  {
    code := 0;
    var i: bv64 := 0;
    while i < 8
      invariant i <= 8
      invariant code == Prefix(c, i)
    {
      code := code | ((c[i] as bv8 as bv64) << (8 * i));
      i := i + 1;
    }
  }

  /** The accumulation loop as written, with `&=` starting from 0. */
  method AccumulateCodeAsWritten(c: seq<Hex.Byte>) returns (code: bv64)
    requires |c| == 8
    ensures code == 0
  {
    code := 0;
    var i: bv64 := 0;
    while i < 8
      invariant i <= 8
      invariant code == 0
    {
      code := code & ((c[i] as bv8 as bv64) << (8 * i));
      i := i + 1;
    }
  }
}
