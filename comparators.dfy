/**
 * The comparators `qsort` is given (comparators.c). Every comparator is
 * documented to return a negative value, zero or a positive value when its
 * left operand is less than, equal to or greater than its right one.
 */
module Comparators {
  import opened PgTypes

  function Sign(x: int): int {
    if x < 0 then -1 else if x == 0 then 0 else 1
  }

  /** The `COMPARE(a,b)` macro: `(a > b) - (a < b)`. */
  function Compare(a: int, b: int): (r: int)
    ensures r == -1 <==> a < b
    ensures r == 0 <==> a == b
    ensures r == 1 <==> a > b
    ensures r == Sign(a - b)
  {
    (if a > b then 1 else 0) - (if a < b then 1 else 0)
  }

  lemma CompareAntisymmetric(a: int, b: int)
    ensures Compare(a, b) == -Compare(b, a)
  {
  }

  /** The comparator's promise: the sign of `c` orders `l` and `r`. */
  predicate OrdersLikeValues(c: int, l: int, r: int) {
    (c < 0 <==> l < r) && (c == 0 <==> l == r) && (c > 0 <==> l > r)
  }

  /**
   * `datum_comparator_integer` as written: the two Datums are subtracted as
   * unsigned 64-bit words and the difference is returned as an `int`, which
   * keeps its low 32 bits.
   */
  function DatumComparatorInteger(l: Word, r: Word): (c: int)
    ensures IsInt32(c)
    ensures (c - (l - r)) % TWO_32 == 0
  {
    var diff: Word := (l - r) % TWO_64;
    assert (diff - (l - r)) % TWO_32 == 0 by {
      assert TWO_64 == TWO_32 * TWO_32;
    }
    Wrap32(diff)
  }

  /** For two int16 values the subtraction cannot wrap, so the comparator keeps its promise. */
  lemma IntegerComparatorCorrectForInt16(a: int, b: int)
    requires IsInt16(a) && IsInt16(b)
    ensures OrdersLikeValues(DatumComparatorInteger(WordOf(a), WordOf(b)), a, b)
  {
    var diff := (WordOf(a) - WordOf(b)) % TWO_64;
    WordDifference(a, b);
    assert diff % TWO_32 == if a >= b then a - b else a - b + TWO_32;
    assert DatumComparatorInteger(WordOf(a), WordOf(b)) == Wrap32(diff) == a - b;
  }

  /** The unsigned 64-bit difference of the words of two int16 values. */
  lemma WordDifference(a: int, b: int)
    requires IsInt16(a) && IsInt16(b)
    ensures (WordOf(a) - WordOf(b)) % TWO_64 == if a >= b then a - b else a - b + TWO_64
  {
    assert WordOf(a) == if a >= 0 then a else a + TWO_64;
    assert WordOf(b) == if b >= 0 then b else b + TWO_64;
  }

  /**
   * For int32 values the difference wraps: -2^31 compared with 1 gives a
   * positive result, so the comparator claims -2^31 > 1.
   */
  lemma IntegerComparatorWrongForInt32()
    ensures IsInt32(-0x8000_0000) && IsInt32(1)
    ensures DatumComparatorInteger(WordOf(-0x8000_0000), WordOf(1)) == 0x7FFF_FFFF
    ensures !OrdersLikeValues(DatumComparatorInteger(WordOf(-0x8000_0000), WordOf(1)), -0x8000_0000, 1)
  {
  }

  /**
   * The integer comparator as intended: `COMPARE` applied to the signed
   * values the two Datums hold.
   */
  function DatumComparatorIntegerFixed(l: Word, r: Word): (c: int)
    ensures -1 <= c <= 1
    ensures OrdersLikeValues(c, Wrap64(l), Wrap64(r))
  {
    Compare(Wrap64(l), Wrap64(r))
  }

  /** The intended comparator keeps its promise for every pair of int16, int32 or int64 values. */
  lemma FixedComparatorCorrect(a: int, b: int)
    requires IsInt64(a) && IsInt64(b)
    ensures OrdersLikeValues(DatumComparatorIntegerFixed(WordOf(a), WordOf(b)), a, b)
    ensures DatumComparatorIntegerFixed(WordOf(a), WordOf(b)) == -DatumComparatorIntegerFixed(WordOf(b), WordOf(a))
  {
    WrapWordOf(a);
    WrapWordOf(b);
  }

  /** The comparators `get_comparator` can return. */
  datatype Comparator = IntegerComparator | Float4Comparator

  /** `get_comparator`: there is no entry for text or timestamptz. */
  function GetComparator(t: Oid): (r: Result<Comparator>)
    ensures r.Ok? <==> t == INT2OID || t == INT4OID || t == FLOAT4OID
    ensures r.Ok? ==> (r.value == Float4Comparator <==> t == FLOAT4OID)
    ensures t == InvalidOid ==> r == Err(INVALID_OID_TYPE)
    ensures t != InvalidOid && r.Err? ==> r == Err(UNSUPPORTED_DATA_TYPE)
  {
    if t == INT2OID || t == INT4OID then Ok(IntegerComparator)
    else if t == FLOAT4OID then Ok(Float4Comparator)
    else if t == InvalidOid then Err(INVALID_OID_TYPE)
    else Err(UNSUPPORTED_DATA_TYPE)
  }

  /** Two of the five supported types, text and timestamptz, have no comparator. */
  lemma NoComparatorForTextOrTimestamptz()
    ensures IsSupportedType(TEXTOID) && GetComparator(TEXTOID) == Err(UNSUPPORTED_DATA_TYPE)
    ensures IsSupportedType(TIMESTAMPTZOID) && GetComparator(TIMESTAMPTZOID) == Err(UNSUPPORTED_DATA_TYPE)
  {
  }
}
