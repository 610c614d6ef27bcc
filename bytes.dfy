/**
 * Byte-level vocabulary shared by both sides of the protocol: fixed-width
 * unsigned integers, little- and big-endian encodings, Python slice
 * semantics, strict UTF-8 and the NUL trimming done by `str.strip('\x00')`.
 */
module Bytes {

  type byte = b: int | 0 <= b < 0x100
  type u16 = n: int | 0 <= n < 0x1_0000
  type u32 = n: int | 0 <= n < 0x1_0000_0000

  /** A C++ `char` seen as the unsigned byte it carries. */
  type Char8 = c: char | c as int < 0x100 witness '\0'

  datatype Option<+T> = None | Some(value: T)

  datatype Result<+T, +E> = Ok(value: T) | Err(error: E) {
    predicate IsFailure() { Err? }
    function PropagateFailure<U>(): Result<U, E>
      requires Err?
    {
      Err(error)
    }
    function Extract(): T
      requires Ok?
    {
      value
    }
  }

  function Min(a: int, b: int): int { if a <= b then a else b }

  /** `s[lo:hi]` in Python: both bounds are clamped to the sequence, never an error. */
  function Slice<T>(s: seq<T>, lo: nat, hi: nat): (r: seq<T>)
    requires lo <= hi
    ensures |r| == Min(hi, |s|) - Min(lo, |s|)
    ensures hi <= |s| ==> r == s[lo..hi]
  {
    s[Min(lo, |s|)..Min(hi, |s|)]
  }

  /** `s[lo:]` in Python. */
  function Drop<T>(s: seq<T>, lo: nat): (r: seq<T>)
    ensures |r| == |s| - Min(lo, |s|)
    ensures lo <= |s| ==> r == s[lo..]
  {
    s[Min(lo, |s|)..]
  }

  function Zeros(n: nat): (r: seq<byte>)
    ensures |r| == n && forall i :: 0 <= i < n ==> r[i] == 0
  {
    if n == 0 then [] else [0] + Zeros(n - 1)
  }

  /** Each part of a four-part concatenation is the slice at its offsets. */
  lemma SliceConcat4<T>(a: seq<T>, b: seq<T>, c: seq<T>, d: seq<T>)
    ensures var s := a + b + c + d;
            var i, j, k := |a|, |a| + |b|, |a| + |b| + |c|;
            s[..i] == a && s[i..j] == b && s[j..k] == c && s[k..] == d
  {
    var s := a + b + c + d;
    assert s == ((a + b) + c) + d;
    assert s[..|a + b + c|] == a + b + c;
    assert (a + b + c)[..|a + b|] == a + b;
  }

  // ---------------------------------------------------------------------
  // Fixed-width integers

  function Pow256(w: nat): (r: nat)
    ensures r >= 1
  {
    if w == 0 then 1 else 256 * Pow256(w - 1)
  }

  /** The `w` low-order bytes of `n`, least significant first. */
  function EncodeLE(n: nat, w: nat): (r: seq<byte>)
    ensures |r| == w
  {
    if w == 0 then [] else [n % 256] + EncodeLE(n / 256, w - 1)
  }

  /** The `w` low-order bytes of `n`, most significant first. */
  function EncodeBE(n: nat, w: nat): (r: seq<byte>)
    ensures |r| == w
  {
    if w == 0 then [] else EncodeBE(n / 256, w - 1) + [n % 256]
  }

  function DecodeLE(s: seq<byte>): nat
  {
    if s == [] then 0 else s[0] + 256 * DecodeLE(s[1..])
  }

  function DecodeBE(s: seq<byte>): nat
  {
    if s == [] then 0 else 256 * DecodeBE(s[..|s| - 1]) + s[|s| - 1]
  }

  lemma {:induction false} DecodeLEBound(s: seq<byte>)
    ensures DecodeLE(s) < Pow256(|s|)
  {
    if s != [] {
      DecodeLEBound(s[1..]);
    }
  }

  lemma {:induction false} DecodeBEBound(s: seq<byte>)
    ensures DecodeBE(s) < Pow256(|s|)
  {
    if s != [] {
      DecodeBEBound(s[..|s| - 1]);
    }
  }

  /** Reading back `w` little-endian bytes recovers any value that fits in them. */
  lemma {:induction false} DecodeEncodeLE(n: nat, w: nat)
    requires n < Pow256(w)
    ensures DecodeLE(EncodeLE(n, w)) == n
  {
    if w > 0 {
      var r := EncodeLE(n, w);
      assert r[1..] == EncodeLE(n / 256, w - 1);
      DecodeEncodeLE(n / 256, w - 1);
    }
  }

  /** Reading back `w` big-endian bytes recovers any value that fits in them. */
  lemma {:induction false} DecodeEncodeBE(n: nat, w: nat)
    requires n < Pow256(w)
    ensures DecodeBE(EncodeBE(n, w)) == n
  {
    if w > 0 {
      var r := EncodeBE(n, w);
      var q := n / 256;
      assert n == 256 * q + n % 256;
      assert q < Pow256(w - 1);
      assert r[..|r| - 1] == EncodeBE(q, w - 1) && r[|r| - 1] == n % 256;
      DecodeEncodeBE(q, w - 1);
      assert DecodeBE(r) == 256 * DecodeBE(r[..|r| - 1]) + r[|r| - 1];
    }
  }

  /** Decoding loses nothing: re-encoding a decoded buffer gives the same bytes. */
  lemma {:induction false} EncodeDecodeBE(s: seq<byte>)
    ensures EncodeBE(DecodeBE(s), |s|) == s
  {
    if s != [] {
      var init := s[..|s| - 1];
      EncodeDecodeBE(init);
      DecodeBEBound(init);
      var n := DecodeBE(s);
      assert n / 256 == DecodeBE(init) && n % 256 == s[|s| - 1];
    }
  }

  lemma LE2(s: seq<byte>)
    requires |s| == 2
    ensures DecodeLE(s) == s[0] as int + 256 * (s[1] as int)
  {
    assert DecodeLE(s[1..]) == s[1] + 256 * DecodeLE(s[2..]);
  }

  lemma LE4(s: seq<byte>)
    requires |s| == 4
    ensures DecodeLE(s) == s[0] as int + 256 * (s[1] as int) + 65536 * (s[2] as int) + 16777216 * (s[3] as int)
  {
    assert DecodeLE(s[3..]) == s[3] + 256 * DecodeLE(s[4..]);
    assert DecodeLE(s[2..]) == s[2] + 256 * DecodeLE(s[3..]);
    assert DecodeLE(s[1..]) == s[1] + 256 * DecodeLE(s[2..]);
  }

  lemma BE2(s: seq<byte>)
    requires |s| == 2
    ensures DecodeBE(s) == 256 * (s[0] as int) + s[1] as int
  {
    assert DecodeBE(s[..1]) == 256 * DecodeBE(s[..0]) + s[0];
  }

  lemma BE4(s: seq<byte>)
    requires |s| == 4
    ensures DecodeBE(s) == 16777216 * (s[0] as int) + 65536 * (s[1] as int) + 256 * (s[2] as int) + s[3] as int
  {
    assert s[..3][..2] == s[..2] && s[..2][..1] == s[..1] && s[..1][..0] == s[..0];
    assert DecodeBE(s[..1]) == 256 * DecodeBE(s[..0]) + s[0];
    assert DecodeBE(s[..2]) == 256 * DecodeBE(s[..1]) + s[1];
    assert DecodeBE(s[..3]) == 256 * DecodeBE(s[..2]) + s[2];
  }

  // ---------------------------------------------------------------------
  // UTF-8 (strict, as Python's `bytes.decode('utf-8')` and `str.encode('utf-8')`)

  predicate IsContinuation(b: byte) { 0x80 <= b < 0xC0 }

  /**
   * The scalar value at the start of `s` and the number of bytes it takes,
   * or None when `s` does not start with a well-formed UTF-8 sequence
   * (Table 3-7 of the Unicode Standard: no overlong forms, no surrogates,
   * nothing above U+10FFFF, no truncated sequence).
   */
  function DecodeScalar(s: seq<byte>): (r: Option<(char, nat)>)
    requires s != []
    ensures r.Some? ==> 1 <= r.value.1 <= 4 && r.value.1 <= |s|
  {
    var b0: int := s[0];
    var b1: int := if |s| >= 2 then s[1] else 0;
    var b2: int := if |s| >= 3 then s[2] else 0;
    var b3: int := if |s| >= 4 then s[3] else 0;
    if b0 < 0x80 then
      Some((b0 as char, 1))
    else if 0xC2 <= b0 <= 0xDF then
      if |s| >= 2 && IsContinuation(s[1]) then
        Some((((b0 - 0xC0) * 64 + (b1 - 0x80)) as char, 2))
      else None
    else if 0xE0 <= b0 <= 0xEF then
      var lo := if b0 == 0xE0 then 0xA0 else 0x80;
      var hi := if b0 == 0xED then 0x9F else 0xBF;
      if |s| >= 3 && lo <= b1 <= hi && IsContinuation(s[2]) then
        Some((((b0 - 0xE0) * 4096 + (b1 - 0x80) * 64 + (b2 - 0x80)) as char, 3))
      else None
    else if 0xF0 <= b0 <= 0xF4 then
      var lo := if b0 == 0xF0 then 0x90 else 0x80;
      var hi := if b0 == 0xF4 then 0x8F else 0xBF;
      if |s| >= 4 && lo <= b1 <= hi && IsContinuation(s[2]) && IsContinuation(s[3]) then
        Some((((b0 - 0xF0) * 262144 + (b1 - 0x80) * 4096 + (b2 - 0x80) * 64 + (b3 - 0x80)) as char, 4))
      else None
    else
      None
  }

  /** `bytes.decode('utf-8')`: None stands for the UnicodeDecodeError it raises. */
  function Utf8Decode(s: seq<byte>): Option<string>
    decreases |s|
  {
    if s == [] then Some([])
    else
      match DecodeScalar(s)
      case None => None
      case Some((c, w)) =>
        match Utf8Decode(s[w..])
        case None => None
        case Some(t) => Some([c] + t)
  }

  function EncodeScalar(c: char): (r: seq<byte>)
    ensures 1 <= |r| <= 4
  {
    var n := c as int;
    if n < 0x80 then [n]
    else if n < 0x800 then [0xC0 + n / 64, 0x80 + n % 64]
    else if n < 0x1_0000 then [0xE0 + n / 4096, 0x80 + (n / 64) % 64, 0x80 + n % 64]
    else [0xF0 + n / 262144, 0x80 + (n / 4096) % 64, 0x80 + (n / 64) % 64, 0x80 + n % 64]
  }

  /** `str.encode('utf-8')`. */
  function Utf8Encode(s: string): (r: seq<byte>)
    ensures |r| >= |s|
  {
    if s == [] then [] else EncodeScalar(s[0]) + Utf8Encode(s[1..])
  }

  predicate IsAscii(s: string) { forall i :: 0 <= i < |s| ==> s[i] as int < 0x80 }

  lemma DecodeEncodeScalar(c: char, rest: seq<byte>)
    ensures DecodeScalar(EncodeScalar(c) + rest) == Some((c, |EncodeScalar(c)|))
  {
    var n := c as int;
    if n < 0x80 {
    } else if n < 0x800 {
      DecodeTwo(c, rest);
    } else if n < 0x1_0000 {
      DecodeThree(c, rest);
    } else {
      DecodeFour(c, rest);
    }
  }

  lemma DecodeTwo(c: char, rest: seq<byte>)
    requires 0x80 <= c as int < 0x800
    ensures DecodeScalar(EncodeScalar(c) + rest) == Some((c, 2))
  {
    var n := c as int;
    var s := EncodeScalar(c) + rest;
    var b0: int, b1: int := s[0], s[1];
    assert b0 == 0xC0 + n / 64 && b1 == 0x80 + n % 64;
    assert 0xC2 <= b0 <= 0xDF;
    assert (b0 - 0xC0) * 64 + (b1 - 0x80) == n;
  }

  lemma DecodeThree(c: char, rest: seq<byte>)
    requires 0x800 <= c as int < 0x1_0000
    ensures DecodeScalar(EncodeScalar(c) + rest) == Some((c, 3))
  {
    var n := c as int;
    var s := EncodeScalar(c) + rest;
    var b0: int, b1: int, b2: int := s[0], s[1], s[2];
    assert b0 == 0xE0 + n / 4096 && b1 == 0x80 + (n / 64) % 64 && b2 == 0x80 + n % 64;
    assert n == (n / 4096) * 4096 + ((n / 64) % 64) * 64 + n % 64;
    assert b0 == 0xE0 ==> b1 >= 0xA0;
    assert b0 == 0xED ==> b1 <= 0x9F;
  }

  lemma DecodeFour(c: char, rest: seq<byte>)
    requires 0x1_0000 <= c as int
    ensures DecodeScalar(EncodeScalar(c) + rest) == Some((c, 4))
  {
    var n := c as int;
    var s := EncodeScalar(c) + rest;
    var b0: int, b1: int, b2: int, b3: int := s[0], s[1], s[2], s[3];
    SixBitDigits(n);
    assert b0 == 0xF0 + n / 262144 && b1 == 0x80 + (n / 4096) % 64;
    assert b2 == 0x80 + (n / 64) % 64 && b3 == 0x80 + n % 64;
  }

  /** The base-64 digits of a four-byte scalar, and the ranges of the second byte at the two ends. */
  lemma SixBitDigits(n: int)
    requires 0x1_0000 <= n < 0x11_0000
    ensures n == (n / 262144) * 262144 + ((n / 4096) % 64) * 4096 + ((n / 64) % 64) * 64 + n % 64
    ensures n / 262144 == 0 ==> (n / 4096) % 64 >= 0x10
    ensures n / 262144 == 4 ==> (n / 4096) % 64 <= 0x0F
  {
    var q1 := n / 64;
    var q2 := q1 / 64;
    var q3 := q2 / 64;
    assert n == q1 * 64 + n % 64;
    assert q1 == q2 * 64 + q1 % 64;
    assert q2 == q3 * 64 + q2 % 64;
    assert q2 == n / 4096;
    assert q3 == n / 262144;
  }

  /** Decoding what Python's encoder produced gives the text back. */
  lemma {:induction false} Utf8RoundTrip(s: string)
    ensures Utf8Decode(Utf8Encode(s)) == Some(s)
  {
    if s != [] {
      var e := EncodeScalar(s[0]);
      var tail := Utf8Encode(s[1..]);
      DecodeEncodeScalar(s[0], tail);
      assert Utf8Encode(s) == e + tail;
      assert (e + tail)[|e|..] == tail;
      Utf8RoundTrip(s[1..]);
      assert [s[0]] + s[1..] == s;
    }
  }

  lemma {:induction false} Utf8EncodeAppend(s: string, t: string)
    ensures Utf8Encode(s + t) == Utf8Encode(s) + Utf8Encode(t)
  {
    if s != [] {
      assert (s + t)[1..] == s[1..] + t;
      Utf8EncodeAppend(s[1..], t);
    } else {
      assert s + t == t;
    }
  }

  /** ASCII text is encoded one byte per character, each byte the character's code. */
  lemma {:induction false} Utf8EncodeAscii(s: string)
    requires IsAscii(s)
    ensures |Utf8Encode(s)| == |s|
    ensures forall i :: 0 <= i < |s| ==> Utf8Encode(s)[i] == s[i] as int
  {
    if s != [] {
      Utf8EncodeAscii(s[1..]);
    }
  }

  // ---------------------------------------------------------------------
  // `str.strip('\x00')`

  function Nuls(n: nat): (r: string)
    ensures |r| == n && forall i :: 0 <= i < n ==> r[i] == '\0'
  {
    if n == 0 then [] else ['\0'] + Nuls(n - 1)
  }

  /** Number of NUL characters at the front of `s`. */
  function LeadingNuls(s: string): (n: nat)
    ensures n <= |s|
    ensures forall k :: 0 <= k < n ==> s[k] == '\0'
    ensures n < |s| ==> s[n] != '\0'
  {
    if s == [] || s[0] != '\0' then 0 else 1 + LeadingNuls(s[1..])
  }

  /** Number of NUL characters at the back of `s`. */
  function TrailingNuls(s: string): (n: nat)
    ensures n <= |s|
    ensures forall k :: |s| - n <= k < |s| ==> s[k] == '\0'
    ensures n < |s| ==> s[|s| - 1 - n] != '\0'
  {
    if s == [] || s[|s| - 1] != '\0' then 0 else 1 + TrailingNuls(s[..|s| - 1])
  }

  predicate NoNulEnds(s: string) { s == [] || (s[0] != '\0' && s[|s| - 1] != '\0') }

  /** `s.strip('\x00')`: NUL characters removed from both ends, nothing else. */
  function StripNul(s: string): (r: string)
    ensures NoNulEnds(r)
    ensures |r| <= |s|
  {
    var t := s[LeadingNuls(s)..];
    t[..|t| - TrailingNuls(t)]
  }

  /**
   * What strip removes is exactly NUL characters, and what it keeps is one
   * contiguous stretch of the input.
   */
  lemma StripNulKeepsInfix(s: string, lo: nat, hi: nat)
    requires lo == LeadingNuls(s) && hi == |s| - TrailingNuls(s[lo..])
    ensures lo <= hi <= |s| && StripNul(s) == s[lo..hi]
    ensures forall k :: 0 <= k < lo ==> s[k] == '\0'
    ensures forall k :: hi <= k < |s| ==> s[k] == '\0'
  {
    var m := TrailingNuls(s[lo..]);
    TrailingInfix(s, lo, m);
    StripNulUnfold(s, lo, m);
  }

  lemma StripNulUnfold(s: string, lo: nat, m: nat)
    requires lo == LeadingNuls(s) && m == TrailingNuls(s[lo..])
    ensures StripNul(s) == s[lo..][..|s| - lo - m]
  {
  }

  lemma TrailingInfix(s: string, lo: nat, m: nat)
    requires lo <= |s| && m == TrailingNuls(s[lo..])
    ensures s[lo..][..|s| - lo - m] == s[lo..|s| - m]
    ensures forall k :: |s| - m <= k < |s| ==> s[k] == '\0'
  {
    var t := s[lo..];
    forall k | |s| - m <= k < |s| ensures s[k] == '\0' {
      assert s[k] == t[k - lo];
    }
  }

  lemma StripNulNoNulEnds(s: string)
    requires NoNulEnds(s)
    ensures StripNul(s) == s
  {
  }

  /** A text followed by NUL padding strips back to the text. */
  lemma {:induction false} StripNulPadded(s: string, n: nat)
    requires NoNulEnds(s)
    ensures StripNul(s + Nuls(n)) == s
  {
    var p := s + Nuls(n);
    if s == [] {
      assert p == Nuls(n);
      AllNulLeading(Nuls(n));
    } else {
      assert LeadingNuls(p) == 0;
      PaddingTrailing(s, n);
    }
  }

  lemma {:induction false} AllNulLeading(s: string)
    requires forall i :: 0 <= i < |s| ==> s[i] == '\0'
    ensures LeadingNuls(s) == |s|
  {
    if s != [] {
      AllNulLeading(s[1..]);
    }
  }

  lemma {:induction false} PaddingTrailing(s: string, n: nat)
    requires s != [] && s[|s| - 1] != '\0'
    ensures TrailingNuls(s + Nuls(n)) == n
  {
    if n > 0 {
      var p := s + Nuls(n);
      assert p[..|p| - 1] == s + Nuls(n - 1);
      PaddingTrailing(s, n - 1);
    } else {
      assert s + Nuls(0) == s;
    }
  }

  /** NUL padding is encoded as zero bytes, one per character. */
  lemma {:induction false} Utf8EncodeNuls(n: nat)
    ensures Utf8Encode(Nuls(n)) == Zeros(n)
  {
    if n > 0 {
      assert Nuls(n)[1..] == Nuls(n - 1);
      Utf8EncodeNuls(n - 1);
    }
  }
}
