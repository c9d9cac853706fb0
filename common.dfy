/**
 * The byte layouts of `pkg/common` that the sorted-set layer calls
 * (`WrapSeparatorToSet`, `AppendScoreToSet`, `BuildSetKey`, `SetKeyScore`,
 * `WrapIndexReference`, `UnwrapIndexReference`, `SortedSetSeparator`). Their
 * code is not part of this model, so they are uninterpreted: a `Codecs` value
 * carries them, and every operation is proved for every choice of them.
 */
module Common {
  import opened Wrappers
  import opened ByteCodec

  /** A float64 score; the sorted-set layer only compares scores with `<` and `>`. */
  type Score = real

  /** What `UnwrapIndexReference` returns: the referenced key, the pin flag and the pinned tx id. */
  datatype Reference = Reference(key: Bytes, flag: Byte, index: nat)

  datatype Codecs = Codecs(
    separator: Bytes,
    wrapSeparatorToSet: Bytes -> Bytes,
    appendScoreToSet: (Bytes, Score) -> Bytes,
    buildSetKey: (Bytes, Bytes, Score, Option<nat>) -> Bytes,
    setKeyScore: (Bytes, Bytes) -> Score,
    wrapIndexReference: (Bytes, Option<nat>) -> Bytes,
    unwrapIndexReference: Bytes -> Reference)

  /**
   * ASSUMPTION about `pkg/common`, never proved here: unwrapping a wrapped
   * reference gives back its key, flag 1 exactly when a pin was given, and the
   * pin. Lemmas that need it take it as a hypothesis.
   */
  ghost predicate ReferenceRoundTrips(c: Codecs)
  {
    forall k, pin ::
      var ref := c.unwrapIndexReference(c.wrapIndexReference(k, pin));
      ref.key == k && (ref.flag == 1 <==> pin.Some?) && (pin.Some? ==> ref.index == pin.value)
  }

  /**
   * ASSUMPTION about `pkg/common`, never proved here: every composite key
   * carries the separator. (That the score read back from a composite key is
   * the score it was built with cannot hold for every real score, since no
   * map from the reals into byte strings is one-to-one; lemmas that need it
   * require it of the one key they are about.)
   */
  ghost predicate SetKeysCarrySeparator(c: Codecs)
  {
    forall k, name, score, pin :: HasPrefix(c.buildSetKey(k, name, score, pin), c.separator)
  }
}
