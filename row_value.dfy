/**
 * The typed SQL values of pkg/api/schema (`SQLValue` and its variants
 * `SQLValue_Null`, `_B`, `_S`, `_N`, `_Bs`), with the `Equal` comparison and
 * the `RawValue` unwrapping whose behaviour pkg/api/schema/row_value_test.go
 * pins down. Null is "not equal, no error" against anything but Null; two
 * non-null values of different variants are not comparable.
 */
module RowValue {
  import opened Wrappers
  import opened ByteCodec

  /** The closed set of value variants. */
  datatype SQLValue = Null | B(b: bool) | S(s: string) | N(n: Uint64) | Bs(bs: Bytes)

  /** `sql.ErrNotComparableValues`. */
  datatype SQLError = ErrNotComparableValues

  /** The variant of a value, to compare variants without comparing payloads. */
  datatype Variant = NullVariant | BoolVariant | StringVariant | NumberVariant | BlobVariant

  function VariantOf(v: SQLValue): Variant
  {
    match v
    case Null => NullVariant
    case B(_) => BoolVariant
    case S(_) => StringVariant
    case N(_) => NumberVariant
    case Bs(_) => BlobVariant
  }

  /**
   * `a.Equal(b)`: Null equals only Null and is never an error; a non-null
   * value is unequal to Null, compares its payload with a value of its own
   * variant, and is not comparable with a value of another variant.
   */
  function Equal(a: SQLValue, b: SQLValue): (r: Result<bool, SQLError>)
    ensures r.Failure? <==> !a.Null? && !b.Null? && VariantOf(a) != VariantOf(b)
    ensures r.Success? ==> (r.value <==> a == b)
  {
    match (a, b)
    case (Null, _) => Success(b.Null?)
    case (_, Null) => Success(false)
    case (B(x), B(y)) => Success(x == y)
    case (S(x), S(y)) => Success(x == y)
    case (N(x), N(y)) => Success(x == y)
    case (Bs(x), Bs(y)) => Success(x == y)
    case _ => Failure(ErrNotComparableValues)
  }

  /** Comparison is symmetric, errors included. */
  lemma EqualSymmetric(a: SQLValue, b: SQLValue)
    ensures Equal(a, b) == Equal(b, a)
  {
  }

  /** What `RawValue` hands back: Go's untyped nil, or the payload with its Go type. */
  datatype Raw = RawNil | RawBool(b: bool) | RawString(s: string) | RawUint64(n: Uint64) | RawBytes(bs: Bytes)

  /** The value a raw payload wraps back into; nil is Null. */
  function FromRaw(raw: Raw): SQLValue
  {
    match raw
    case RawNil => Null
    case RawBool(x) => B(x)
    case RawString(x) => S(x)
    case RawUint64(x) => N(x)
    case RawBytes(x) => Bs(x)
  }

  /**
   * `RawValue(v)`: nil for a nil `*SQLValue` and for Null, otherwise the
   * payload, which wraps back into the same value.
   */
  function RawValue(v: Option<SQLValue>): (r: Raw)
    ensures r == RawNil <==> v.None? || v.value.Null?
    ensures v.Some? ==> FromRaw(r) == v.value
  {
    match v
    case None => RawNil
    case Some(Null) => RawNil
    case Some(B(x)) => RawBool(x)
    case Some(S(x)) => RawString(x)
    case Some(N(x)) => RawUint64(x)
    case Some(Bs(x)) => RawBytes(x)
  }

  /** Every raw payload is the raw value of the value it wraps back into. */
  lemma RawValueOfFromRaw(raw: Raw)
    ensures RawValue(Some(FromRaw(raw))) == raw
  {
  }

  /** The assertions of `TestRowComparison`, as facts about this model. */
  lemma RowComparisonCases()
    ensures Equal(Null, Null) == Success(true)
    ensures Equal(Null, B(true)) == Success(false) && Equal(B(true), Null) == Success(false)
    ensures Equal(B(true), S("string1")) == Failure(ErrNotComparableValues)
    ensures Equal(B(true), B(false)) == Success(false)
    ensures Equal(S("string1"), Null) == Success(false)
    ensures Equal(S("string1"), B(true)) == Failure(ErrNotComparableValues)
    ensures Equal(S("string1"), S("string2")) == Success(false)
    ensures Equal(N(1), Null) == Success(false)
    ensures Equal(N(1), B(true)) == Failure(ErrNotComparableValues)
    ensures Equal(N(1), N(2)) == Success(false)
    ensures Equal(Bs([]), Null) == Success(false)
    ensures Equal(Bs([]), B(true)) == Failure(ErrNotComparableValues)
    ensures Equal(Bs([]), Bs([1, 2, 3])) == Success(false)
    ensures RawValue(None) == RawNil && RawValue(Some(Null)) == RawNil
    ensures RawValue(Some(B(true))) == RawBool(true) && RawValue(Some(B(false))) == RawBool(false)
    ensures RawValue(Some(S("string1"))) == RawString("string1")
    ensures RawValue(Some(N(1))) == RawUint64(1)
    ensures RawValue(Some(Bs([1, 2, 3]))) == RawBytes([1, 2, 3])
  {
    assert "string1" != "string2" by {
      assert "string1"[6] != "string2"[6];
    }
  }
}
