/**
 * Byte strings and the big-endian integer codec of Go's `encoding/binary`
 * (`binary.BigEndian.Uint32`, `binary.BigEndian.Uint64`), plus `bytes.HasPrefix`.
 */
module ByteCodec {

  type Byte = b: int | 0 <= b < 256
  type Bytes = seq<Byte>

  const TwoTo64: nat := 0x1_0000_0000_0000_0000
  const MaxUint64: nat := 0xFFFF_FFFF_FFFF_FFFF

  type Uint64 = n: int | 0 <= n < 0x1_0000_0000_0000_0000

  /** 256 to the power `n`: the number of values an `n`-byte field can hold. */
  function Pow256(n: nat): (r: nat)
    ensures r >= 1
  {
    if n == 0 then 1 else 256 * Pow256(n - 1)
  }

  /** The unsigned integer whose big-endian representation is `s` (most significant byte first). */
  function DecodeBE(s: Bytes): (n: nat)
    ensures n < Pow256(|s|)
  {
    if s == [] then 0 else DecodeBE(s[..|s| - 1]) * 256 + s[|s| - 1]
  }

  /** The `width`-byte big-endian representation of `n`. */
  function EncodeBE(n: nat, width: nat): (s: Bytes)
    requires n < Pow256(width)
    ensures |s| == width
  {
    if width == 0 then [] else EncodeBE(n / 256, width - 1) + [n % 256]
  }

  /** Decoding undoes encoding. */
  lemma {:induction false} DecodeEncodeBE(n: nat, width: nat)
    requires n < Pow256(width)
    ensures DecodeBE(EncodeBE(n, width)) == n
  {
    if width > 0 {
      var s := EncodeBE(n, width);
      assert s[..|s| - 1] == EncodeBE(n / 256, width - 1);
      DecodeEncodeBE(n / 256, width - 1);
    }
  }

  /** Encoding undoes decoding: every byte string is the representation of the number it denotes. */
  lemma {:induction false} EncodeDecodeBE(s: Bytes)
    ensures EncodeBE(DecodeBE(s), |s|) == s
  {
    if s != [] {
      var init, last := s[..|s| - 1], s[|s| - 1];
      var d := DecodeBE(init);
      assert (d * 256 + last) / 256 == d;
      assert (d * 256 + last) % 256 == last;
      EncodeDecodeBE(init);
      assert s == init + [last];
    }
  }

  lemma Pow256Widths()
    ensures Pow256(4) == 0x1_0000_0000
    ensures Pow256(8) == TwoTo64
  {
  }

  /** `bytes.HasPrefix(s, p)`. */
  predicate HasPrefix(s: Bytes, p: Bytes)
  {
    |p| <= |s| && s[..|p|] == p
  }

  /** A prefix is exactly what a string starts with: `p + t` has prefix `p`, and a string with prefix `p` is `p` followed by the rest. */
  lemma HasPrefixMeaning(s: Bytes, p: Bytes, t: Bytes)
    ensures HasPrefix(p + t, p)
    ensures HasPrefix(s, p) ==> s == p + s[|p|..]
  {
    assert (p + t)[..|p|] == p;
  }

  /** `n` zero bytes: what `make([]byte, n)` and a zeroed Go array hold. */
  function Zeros(n: nat): (z: Bytes)
    ensures |z| == n && forall j :: 0 <= j < n ==> z[j] == 0
  {
    seq(n, _ => 0)
  }
}
