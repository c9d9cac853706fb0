/**
 * The value pointer that the B-tree index stores for every key: a big-endian
 * 32-bit value length, a big-endian 64-bit offset into the value log, and the
 * SHA-256 digest of the value (4 + 8 + 32 bytes). ZScan decodes it inline
 * (pkg/database/sorted_set.go, lines 99-103).
 */
module ValuePointers {
  import opened Wrappers
  import opened ByteCodec

  const LengthSize: nat := 4
  const OffsetSize: nat := 8
  const HashSize: nat := 32
  const PointerSize: nat := LengthSize + OffsetSize + HashSize

  datatype Pointer = Pointer(length: nat, offset: nat, hash: Bytes)

  /** A pointer whose fields fit the encoded widths. */
  predicate WellFormed(p: Pointer)
  {
    p.length < 0x1_0000_0000 && p.offset < TwoTo64 && |p.hash| == HashSize
  }

  /**
   * `var hVal [32]byte; copy(hVal[:], src)`: the first 32 bytes of `src`,
   * zero-padded when `src` is shorter.
   */
  function CopyHash(src: Bytes): (h: Bytes)
    ensures |h| == HashSize
    ensures forall j :: 0 <= j < HashSize ==> h[j] == if j < |src| then src[j] else 0
  {
    if |src| >= HashSize then src[..HashSize] else src + Zeros(HashSize - |src|)
  }

  /**
   * Decodes a stored value pointer. `None` stands for the index-out-of-range
   * panic Go raises when fewer than 12 bytes are present; the hash field is
   * whatever `copy` leaves in the zeroed array.
   */
  function DecodePointer(v: Bytes): (r: Option<Pointer>)
    ensures r.None? <==> |v| < LengthSize + OffsetSize
    ensures r.Some? ==> WellFormed(r.value)
  {
    if |v| < LengthSize + OffsetSize then None
    else
      Pow256Widths();
      Some(Pointer(DecodeBE(v[..4]), DecodeBE(v[4..12]), CopyHash(v[12..])))
  }

  /** The layout the store writes: length, offset and hash back to back. */
  function EncodePointer(p: Pointer): (v: Bytes)
    requires WellFormed(p)
    ensures |v| == PointerSize
  {
    Pow256Widths();
    EncodeBE(p.length, LengthSize) + EncodeBE(p.offset, OffsetSize) + p.hash
  }

  /** Every well-formed pointer survives the round trip through its encoding. */
  lemma {:induction false} DecodeEncodePointer(p: Pointer)
    requires WellFormed(p)
    ensures DecodePointer(EncodePointer(p)) == Some(p)
  {
    Pow256Widths();
    var v := EncodePointer(p);
    assert v[..4] == EncodeBE(p.length, LengthSize);
    assert v[4..12] == EncodeBE(p.offset, OffsetSize);
    assert v[12..] == p.hash;
    assert CopyHash(v[12..]) == p.hash;
    DecodeEncodeBE(p.length, LengthSize);
    DecodeEncodeBE(p.offset, OffsetSize);
  }

  /** Every 44-byte value is the encoding of the pointer it decodes to. */
  lemma {:induction false} EncodeDecodePointer(v: Bytes)
    requires |v| == PointerSize
    ensures DecodePointer(v).Some? && EncodePointer(DecodePointer(v).value) == v
  {
    Pow256Widths();
    EncodeDecodeBE(v[..4]);
    EncodeDecodeBE(v[4..12]);
    assert v == v[..4] + v[4..12] + v[12..];
  }

  /**
   * `int64(vOff)`: Go's conversion of a `uint64` to `int64`, which wraps
   * values of 2^63 and above to negative numbers.
   */
  function AsInt64(u: nat): (r: int)
    requires u < TwoTo64
    ensures -(TwoTo64 as int) / 2 <= r < TwoTo64 / 2
    ensures u < TwoTo64 / 2 ==> r == u
    ensures u >= TwoTo64 / 2 ==> r == u - TwoTo64
  {
    if u < TwoTo64 / 2 then u else u - TwoTo64
  }
}
