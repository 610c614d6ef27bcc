/**
 * The client's little-endian field encoders (utils.cpp). `serializeShort`
 * and `serializeInt` fill a fresh two- or four-byte vector by indexed
 * writes; `serializeByte` and `serializeString` are single constructions.
 */
module Utils {
  import opened Bytes

  /** `static_cast<uint8_t>`: keeps the low eight bits. */
  function Cast8(x: nat): (b: byte)
    ensures b == x % 0x100
  {
    x % 0x100
  }

  /** A one-byte vector holding `num`. */
  function SerializeByte(num: byte): (r: seq<byte>)
    ensures |r| == 1 && DecodeLE(r) == num
  {
    [num]
  }

  /** Two bytes, low byte first. */
  method SerializeShort(num: u16) returns (r: seq<byte>)
    ensures |r| == 2 && r[0] == num % 0x100 && r[1] == num / 0x100
    ensures r == EncodeLE(num, 2)
    ensures DecodeLE(r) == num
  {
    var a := new byte[2];
    a[0] := Cast8(num % 0x100);
    a[1] := Cast8((num / 0x100) % 0x100);
    r := a[..];
    LE2(r);
  }

  /**
   * Four bytes, least significant first. utils.cpp masks each shifted
   * value with 0xFFFF before the cast to eight bits; the cast alone decides
   * the byte, so the mask changes nothing.
   */
  method SerializeInt(num: u32) returns (r: seq<byte>)
    ensures |r| == 4
    ensures r[0] == num % 0x100 && r[1] == (num / 0x100) % 0x100
    ensures r[2] == (num / 0x1_0000) % 0x100 && r[3] == num / 0x100_0000
    ensures r == EncodeLE(num, 4)
    ensures DecodeLE(r) == num
  {
    var a := new byte[4];
    a[0] := Cast8(num % 0x1_0000);
    a[1] := Cast8((num / 0x100) % 0x1_0000);
    a[2] := Cast8((num / 0x1_0000) % 0x1_0000);
    a[3] := Cast8((num / 0x100_0000) % 0x1_0000);
    r := a[..];
    MaskedBytes(num);
    EncodeLE4(num);
    RoundTripLE4(num);
  }

  /** Each masked-then-cast byte is the plain byte of `n` at its position. */
  lemma MaskedBytes(n: u32)
    ensures Cast8(n % 0x1_0000) == n % 0x100
    ensures Cast8((n / 0x100) % 0x1_0000) == (n / 0x100) % 0x100
    ensures Cast8((n / 0x1_0000) % 0x1_0000) == (n / 0x1_0000) % 0x100
    ensures Cast8((n / 0x100_0000) % 0x1_0000) == n / 0x100_0000
  {
    MaskThenCast(n);
    MaskThenCast(n / 0x100);
    MaskThenCast(n / 0x1_0000);
    MaskThenCast(n / 0x100_0000);
  }

  /** The 4-byte little-endian encoding of a `u32` decodes back to it. */
  lemma RoundTripLE4(n: u32)
    ensures DecodeLE(EncodeLE(n, 4)) == n
  {
    assert Pow256(4) == 0x1_0000_0000;
    DecodeEncodeLE(n, 4);
  }

  /** Masking with 0xFFFF before keeping eight bits gives the same byte as not masking. */
  lemma MaskThenCast(x: nat)
    ensures (x % 0x1_0000) % 0x100 == x % 0x100
  {
  }

  lemma EncodeLE4(n: u32)
    ensures EncodeLE(n, 4) == [n % 0x100, (n / 0x100) % 0x100, (n / 0x1_0000) % 0x100, n / 0x100_0000]
  {
    var n1 := n / 256;
    var n2 := n1 / 256;
    var n3 := n2 / 256;
    assert n2 == n / 0x1_0000;
    assert n3 == n / 0x100_0000;
    assert n3 % 256 == n3;
    assert EncodeLE(n3, 1) == [n3 % 256];
    assert EncodeLE(n2, 2) == [n2 % 256] + EncodeLE(n3, 1);
    assert EncodeLE(n1, 3) == [n1 % 256] + EncodeLE(n2, 2);
  }

  /** A vector of the same length whose bytes are the characters, in order. */
  function SerializeString(input: seq<Char8>): (r: seq<byte>)
    ensures |r| == |input|
    ensures forall i :: 0 <= i < |input| ==> r[i] == input[i] as int
  {
    seq(|input|, i requires 0 <= i < |input| => input[i] as int)
  }
}
