/**
 * The PostgreSQL vocabulary the median aggregate is written against:
 * type Oids, fixed-width two's-complement integers, the 64-bit Datum word,
 * variable-length text (varlena) and the error/outcome wrappers used in
 * place of `elog(ERROR, ...)`.
 */
module PgTypes {

  /** A value that may be absent (SQL NULL argument, NULL state pointer). */
  datatype Option<T> = None | Some(value: T)

  /** A computed value, or the message of the `elog(ERROR, ...)` that aborts it. */
  datatype Result<T> = Ok(value: T) | Err(message: string)

  /** The result of an operation that produces no value but may abort. */
  datatype Outcome = Pass | Fail(message: string)

  /** An octet. */
  type byte = x: int | 0 <= x < 0x100

  /** The 32 raw bits of an IEEE single-precision value, read as an unsigned integer. */
  type Float4Bits = x: int | 0 <= x < 0x1_0000_0000

  /** An object identifier: an unsigned 32-bit integer. */
  type Oid = x: int | 0 <= x < 0x1_0000_0000

  // Values from PostgreSQL's catalog (pg_type.h).
  const InvalidOid: Oid := 0
  const INT2OID: Oid := 21
  const INT4OID: Oid := 23
  const TEXTOID: Oid := 25
  const FLOAT4OID: Oid := 700
  const TIMESTAMPTZOID: Oid := 1184

  const INVALID_OID_TYPE := "invalid oid type"
  const UNSUPPORTED_DATA_TYPE := "unsupported data type"

  /** The five element types the aggregate supports. */
  predicate IsSupportedType(t: Oid) {
    t == INT2OID || t == INT4OID || t == TIMESTAMPTZOID || t == FLOAT4OID || t == TEXTOID
  }

  predicate IsInt16(x: int) { -0x8000 <= x < 0x8000 }
  predicate IsInt32(x: int) { -0x8000_0000 <= x < 0x8000_0000 }
  predicate IsInt64(x: int) { -0x8000_0000_0000_0000 <= x < 0x8000_0000_0000_0000 }

  const TWO_16 := 0x1_0000
  const TWO_32 := 0x1_0000_0000
  const TWO_64 := 0x1_0000_0000_0000_0000

  /** Conversion of an integer to int16 in two's complement: keep the low 16 bits. */
  function Wrap16(x: int): (r: int)
    ensures IsInt16(r) && (x - r) % TWO_16 == 0
    ensures IsInt16(x) ==> r == x
  {
    var u := x % TWO_16;
    if u < 0x8000 then u else u - TWO_16
  }

  /** Conversion of an integer to int32 in two's complement: keep the low 32 bits. */
  function Wrap32(x: int): (r: int)
    ensures IsInt32(r) && (x - r) % TWO_32 == 0
    ensures IsInt32(x) ==> r == x
  {
    var u := x % TWO_32;
    if u < 0x8000_0000 then u else u - TWO_32
  }

  /** Conversion of an integer to int64 in two's complement: keep the low 64 bits. */
  function Wrap64(x: int): (r: int)
    ensures IsInt64(r) && (x - r) % TWO_64 == 0
    ensures IsInt64(x) ==> r == x
  {
    var u := x % TWO_64;
    if u < 0x8000_0000_0000_0000 then u else u - TWO_64
  }

  /** The unsigned residue of a value of the width converts back to the value. */
  lemma ResidueWraps16(v: int)
    requires IsInt16(v)
    ensures Wrap16(v % TWO_16) == v
  {
    assert v % TWO_16 == if v >= 0 then v else v + TWO_16;
  }

  /** The unsigned residue of a value of the width converts back to the value. */
  lemma ResidueWraps32(v: int)
    requires IsInt32(v)
    ensures Wrap32(v % TWO_32) == v
  {
    assert v % TWO_32 == if v >= 0 then v else v + TWO_32;
  }

  /** The unsigned residue of a value of the width converts back to the value. */
  lemma ResidueWraps64(v: int)
    requires IsInt64(v)
    ensures Wrap64(v % TWO_64) == v
  {
    assert v % TWO_64 == if v >= 0 then v else v + TWO_64;
  }

  /** An unsigned 64-bit machine word: the representation of a Datum. */
  type Word = w: int | 0 <= w < 0x1_0000_0000_0000_0000

  /** The machine word holding `x` in two's complement (a C cast to Datum sign-extends). */
  function WordOf(x: int): (w: Word)
    ensures (x - w) % TWO_64 == 0
  {
    x % TWO_64
  }

  lemma WrapWordOf(x: int)
    requires IsInt64(x)
    ensures Wrap64(WordOf(x)) == x
  {
  }

  /**
   * A text value: a varlena with either a 1-byte ("short", packed) or a
   * 4-byte header, followed by its payload bytes.
   */
  datatype Text = Varlena(shortHeader: bool, payload: seq<byte>)

  const VARHDRSZ := 4
  const VARHDRSZ_SHORT := 1

  /** VARSIZE_ANY: the whole varlena size, header included. */
  function VarSizeAny(t: Text): nat {
    |t.payload| + (if t.shortHeader then VARHDRSZ_SHORT else VARHDRSZ)
  }

  /** VARSIZE_ANY_EXHDR: the payload size. */
  function VarSizeAnyExhdr(t: Text): (n: nat)
    ensures n == VarSizeAny(t) - (if t.shortHeader then VARHDRSZ_SHORT else VARHDRSZ)
  {
    |t.payload|
  }

  /** A varlena fits the 30-bit size field, and a short header only holds up to 127 bytes. */
  predicate ValidText(t: Text) {
    VarSizeAny(t) <= 0x3FFF_FFFF && (t.shortHeader ==> VarSizeAny(t) <= 0x7F)
  }

  /** A Datum is a machine word; a text Datum is a pointer to a varlena. */
  datatype Datum = Word(w: Word) | TextPointer(t: Text)

  /** `PointerGetDatum(NULL)`: the zero word. */
  const NullPointerDatum: Datum := Word(0)

  function Int16GetDatum(x: int): Datum { Word(WordOf(x)) }
  function Int32GetDatum(x: int): Datum { Word(WordOf(x)) }
  function Int64GetDatum(x: int): Datum { Word(WordOf(x)) }

  function DatumGetInt16(d: Datum): (x: int)
    requires d.Word?
    ensures IsInt16(x)
  {
    Wrap16(d.w)
  }

  function DatumGetInt32(d: Datum): (x: int)
    requires d.Word?
    ensures IsInt32(x)
  {
    Wrap32(d.w)
  }

  function DatumGetInt64(d: Datum): (x: int)
    requires d.Word?
    ensures IsInt64(x)
  {
    Wrap64(d.w)
  }

  /** A float4 Datum carries the IEEE bit pattern in its low 32 bits (sign-extended, as an int32). */
  function Float4GetDatum(bits: Float4Bits): Datum {
    Int32GetDatum(Wrap32(bits))
  }

  function DatumGetFloat4(d: Datum): Float4Bits
    requires d.Word?
  {
    d.w % TWO_32
  }

  function PointerGetDatum(t: Text): Datum { TextPointer(t) }

  /** Converting through a Datum and back preserves every int16, int32 and int64. */
  lemma DatumIntegerRoundTrip(x: int)
    ensures IsInt16(x) ==> DatumGetInt16(Int16GetDatum(x)) == x
    ensures IsInt32(x) ==> DatumGetInt32(Int32GetDatum(x)) == x
    ensures IsInt64(x) ==> DatumGetInt64(Int64GetDatum(x)) == x
  {
    if IsInt64(x) {
      var w := WordOf(x);
      assert w == if x >= 0 then x else x + TWO_64;
      if IsInt32(x) {
        assert w % TWO_32 == if x >= 0 then x else x + TWO_32;
      }
      if IsInt16(x) {
        assert w % TWO_16 == if x >= 0 then x else x + TWO_16;
      }
    }
  }

  /** A float4 bit pattern survives the trip through a Datum. */
  lemma DatumFloat4RoundTrip(bits: Float4Bits)
    ensures DatumGetFloat4(Float4GetDatum(bits)) == bits
  {
    var x := Wrap32(bits);
    if bits >= 0x8000_0000 {
      assert WordOf(x) == TWO_64 - TWO_32 + bits;
    }
  }
}
