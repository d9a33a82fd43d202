/**
 * The per-element wire codec (serializers.c): each element is written with
 * PostgreSQL's `pqformat` primitives in network (big-endian) byte order, and
 * read back from a message buffer with a read cursor.
 */
module Serializers {
  import opened PgTypes
  import opened PointerArrayUtils

  // ---------------------------------------------------------------------
  // Network byte order

  function Pow256(n: nat): (p: nat)
    ensures p >= 1
  {
    if n == 0 then 1 else 256 * Pow256(n - 1)
  }

  /** The `n` low-order bytes of `x`, most significant first. */
  function BigEndian(x: nat, n: nat): (bs: seq<byte>)
    ensures |bs| == n
    decreases n
  {
    if n == 0 then [] else BigEndian(x / 256, n - 1) + [x % 256]
  }

  /** The unsigned integer whose big-endian representation is `bs`. */
  function FromBigEndian(bs: seq<byte>): nat
  {
    if bs == [] then 0 else FromBigEndian(bs[..|bs| - 1]) * 256 + bs[|bs| - 1]
  }

  lemma {:induction false} FromBigEndianBound(bs: seq<byte>)
    ensures FromBigEndian(bs) < Pow256(|bs|)
  {
    if bs != [] {
      FromBigEndianBound(bs[..|bs| - 1]);
    }
  }

  /** Reading back `n` big-endian bytes of `x` gives `x`, when `x` fits in `n` bytes. */
  lemma {:induction false} FromBigEndianOfBigEndian(x: nat, n: nat)
    requires x < Pow256(n)
    ensures FromBigEndian(BigEndian(x, n)) == x
    decreases n
  {
    if n > 0 {
      var bs := BigEndian(x, n);
      assert bs[..n - 1] == BigEndian(x / 256, n - 1);
      FromBigEndianOfBigEndian(x / 256, n - 1);
    }
  }

  /** Writing back the value of `bs` at its own width reproduces `bs` byte for byte. */
  lemma {:induction false} BigEndianOfFromBigEndian(bs: seq<byte>)
    ensures BigEndian(FromBigEndian(bs), |bs|) == bs
  {
    if bs != [] {
      var init := bs[..|bs| - 1];
      BigEndianOfFromBigEndian(init);
      var x := FromBigEndian(bs);
      assert x / 256 == FromBigEndian(init) && x % 256 == bs[|bs| - 1];
      assert bs == init + [bs[|bs| - 1]];
    }
  }

  // ---------------------------------------------------------------------
  // Writers: pq_sendint16/32/64, pq_sendfloat4, pq_sendbytes

  /** `serialize_int16`: the value as an unsigned 16-bit network integer. */
  function EncodeInt16(v: int): (bs: seq<byte>)
    requires IsInt16(v)
    ensures |bs| == 2
  {
    BigEndian(v % TWO_16, 2)
  }

  /** `serialize_int32`. */
  function EncodeInt32(v: int): (bs: seq<byte>)
    requires IsInt32(v)
    ensures |bs| == 4
  {
    BigEndian(v % TWO_32, 4)
  }

  /** `serialize_int64`, also used for timestamptz. */
  function EncodeInt64(v: int): (bs: seq<byte>)
    requires IsInt64(v)
    ensures |bs| == 8
  {
    BigEndian(v % TWO_64, 8)
  }

  /** `serialize_float4`: `pq_sendfloat4` sends the IEEE bits as a 32-bit network integer. */
  function EncodeFloat4(bits: Float4Bits): (bs: seq<byte>)
    ensures |bs| == 4
  {
    BigEndian(bits, 4)
  }

  /** `serialize_text`: the payload length as an int32, then the payload bytes. */
  function EncodeText(t: Text): (bs: seq<byte>)
    requires ValidText(t)
    ensures |bs| == 4 + |t.payload|
    ensures bs[4..] == t.payload
  {
    BigEndian(VarSizeAnyExhdr(t), 4) + t.payload
  }

  /** The high byte goes first. */
  lemma Int16NetworkOrder(v: int)
    requires IsInt16(v)
    ensures EncodeInt16(v) == [(v % TWO_16) / 256, (v % TWO_16) % 256]
  {
  }

  // ---------------------------------------------------------------------
  // Readers: pq_getmsgbytes, pq_getmsgint, pq_getmsgint64

  const INSUFFICIENT_DATA := "insufficient data left in message"
  const INVALID_ALLOC_SIZE := "invalid memory alloc request size"
  /** MaxAllocSize: the largest request `MemoryContextAlloc` accepts. */
  const MAX_ALLOC_SIZE := 0x3FFF_FFFF

  /** `pq_getmsgbytes`: `n` bytes at the cursor, or an error if `n` is negative or too large. */
  function GetMsgBytes(bs: seq<byte>, cursor: nat, n: int): (r: Result<(seq<byte>, nat)>)
    requires cursor <= |bs|
    ensures r.Ok? <==> 0 <= n <= |bs| - cursor
    ensures r.Ok? ==> |r.value.0| == n && r.value.1 == cursor + n <= |bs|
    ensures r.Err? ==> r.message == INSUFFICIENT_DATA
  {
    if n < 0 || n > |bs| - cursor then Err(INSUFFICIENT_DATA)
    else Ok((bs[cursor..cursor + n], cursor + n))
  }

  /** `pq_getmsgint(msg, n)` and `pq_getmsgint64`: an unsigned big-endian integer of `n` bytes. */
  function GetMsgUnsigned(bs: seq<byte>, cursor: nat, n: nat): (r: Result<(nat, nat)>)
    requires cursor <= |bs|
    ensures r.Ok? ==> r.value.0 < Pow256(n) && r.value.1 == cursor + n <= |bs|
  {
    match GetMsgBytes(bs, cursor, n)
    case Err(m) => Err(m)
    case Ok((raw, next)) =>
      FromBigEndianBound(raw);
      Ok((FromBigEndian(raw), next))
  }

  /** `deserialize_int16`: the unsigned 16-bit reading, assigned to an int16. */
  function DecodeInt16(bs: seq<byte>, cursor: nat): (r: Result<(int, nat)>)
    requires cursor <= |bs|
  {
    match GetMsgUnsigned(bs, cursor, 2)
    case Err(m) => Err(m)
    case Ok((u, next)) => Ok((Wrap16(u), next))
  }

  /** `deserialize_int32`. */
  function DecodeInt32(bs: seq<byte>, cursor: nat): (r: Result<(int, nat)>)
    requires cursor <= |bs|
  {
    match GetMsgUnsigned(bs, cursor, 4)
    case Err(m) => Err(m)
    case Ok((u, next)) => Ok((Wrap32(u), next))
  }

  /** `deserialize_int64`, also used for timestamptz. */
  function DecodeInt64(bs: seq<byte>, cursor: nat): (r: Result<(int, nat)>)
    requires cursor <= |bs|
  {
    match GetMsgUnsigned(bs, cursor, 8)
    case Err(m) => Err(m)
    case Ok((u, next)) => Ok((Wrap64(u), next))
  }

  /** `deserialize_float4`: `pq_getmsgfloat4` reads the bits as a 32-bit network integer. */
  function DecodeFloat4(bs: seq<byte>, cursor: nat): (r: Result<(Float4Bits, nat)>)
    requires cursor <= |bs|
  {
    match GetMsgUnsigned(bs, cursor, 4)
    case Err(m) => Err(m)
    case Ok((u, next)) => Ok((u, next))
  }

  /**
   * `deserialize_text`: an int32 length, then that many bytes copied into a
   * freshly allocated varlena with a 4-byte header of size length + VARHDRSZ.
   */
  function DecodeText(bs: seq<byte>, cursor: nat): (r: Result<(Text, nat)>)
    requires cursor <= |bs|
    ensures r.Ok? ==> !r.value.0.shortHeader && ValidText(r.value.0)
  {
    match GetMsgUnsigned(bs, cursor, 4)
    case Err(m) => Err(m)
    case Ok((u, afterLength)) =>
      var textLen := Wrap32(u);
      match GetMsgBytes(bs, afterLength, textLen)
      case Err(m) => Err(m)
      case Ok((payload, next)) =>
        if textLen + VARHDRSZ > MAX_ALLOC_SIZE then Err(INVALID_ALLOC_SIZE)
        else Ok((Varlena(false, payload), next))
  }

  // ---------------------------------------------------------------------
  // Round trips for single values

  /** An integer encoded as `n` bytes reads back as itself once wrapped to the width. */
  lemma {:induction false} WrappedReading(v: int, n: nat, pre: seq<byte>, post: seq<byte>)
    requires n == 2 || n == 4 || n == 8
    requires (n == 2 ==> IsInt16(v)) && (n == 4 ==> IsInt32(v)) && (n == 8 ==> IsInt64(v))
    ensures var m := Pow256(n);
      m == (if n == 2 then TWO_16 else if n == 4 then TWO_32 else TWO_64) &&
      GetMsgUnsigned(pre + BigEndian(v % m, n) + post, |pre|, n) == Ok((v % m, |pre| + n))
  {
    var m := Pow256(n);
    assert Pow256(2) == TWO_16;
    assert Pow256(4) == TWO_32;
    assert Pow256(8) == TWO_64;
    var enc := BigEndian(v % m, n);
    var bs := pre + enc + post;
    assert bs[|pre|..|pre| + n] == enc;
    FromBigEndianOfBigEndian(v % m, n);
  }

  lemma Int16RoundTrip(v: int, pre: seq<byte>, post: seq<byte>)
    requires IsInt16(v)
    ensures DecodeInt16(pre + EncodeInt16(v) + post, |pre|) == Ok((v, |pre| + 2))
  {
    WrappedReading(v, 2, pre, post);
    ResidueWraps16(v);
  }

  lemma Int32RoundTrip(v: int, pre: seq<byte>, post: seq<byte>)
    requires IsInt32(v)
    ensures DecodeInt32(pre + EncodeInt32(v) + post, |pre|) == Ok((v, |pre| + 4))
  {
    WrappedReading(v, 4, pre, post);
    ResidueWraps32(v);
  }

  lemma Int64RoundTrip(v: int, pre: seq<byte>, post: seq<byte>)
    requires IsInt64(v)
    ensures DecodeInt64(pre + EncodeInt64(v) + post, |pre|) == Ok((v, |pre| + 8))
  {
    WrappedReading(v, 8, pre, post);
    ResidueWraps64(v);
  }

  lemma Float4RoundTrip(bits: Float4Bits, pre: seq<byte>, post: seq<byte>)
    ensures DecodeFloat4(pre + EncodeFloat4(bits) + post, |pre|) == Ok((bits, |pre| + 4))
  {
    var enc := EncodeFloat4(bits);
    var bs := pre + enc + post;
    assert bs[|pre|..|pre| + 4] == enc;
    assert Pow256(4) == TWO_32;
    FromBigEndianOfBigEndian(bits, 4);
  }

  /**
   * Text round-trips by content: the payload comes back unchanged, in a
   * varlena with a 4-byte header whose size is the payload length plus
   * VARHDRSZ, whatever header the original had.
   */
  lemma TextRoundTrip(t: Text, pre: seq<byte>, post: seq<byte>)
    requires ValidText(t)
    ensures DecodeText(pre + EncodeText(t) + post, |pre|)
         == Ok((Varlena(false, t.payload), |pre| + 4 + |t.payload|))
    ensures VarSizeAny(Varlena(false, t.payload)) == |t.payload| + VARHDRSZ
  {
    var n := |t.payload|;
    var lenBytes := BigEndian(n, 4);
    var bs := pre + EncodeText(t) + post;
    assert bs == pre + lenBytes + (t.payload + post);
    assert Pow256(4) == TWO_32;
    FromBigEndianOfBigEndian(n, 4);
    assert bs[|pre|..|pre| + 4] == lenBytes;
    assert Wrap32(n) == n;
    assert bs[|pre| + 4..|pre| + 4 + n] == t.payload;
  }

  // ---------------------------------------------------------------------
  // Dispatch: get_serializer / get_deserializer

  /** The five element codecs. */
  datatype Codec = Int16Codec | Int32Codec | Int64Codec | Float4Codec | TextCodec

  /** `get_serializer`. */
  function GetSerializer(t: Oid): (r: Result<Codec>)
    ensures r.Ok? <==> IsSupportedType(t)
    ensures t == InvalidOid ==> r == Err(INVALID_OID_TYPE)
    ensures t != InvalidOid && !IsSupportedType(t) ==> r == Err(UNSUPPORTED_DATA_TYPE)
    ensures t == INT2OID ==> r == Ok(Int16Codec)
    ensures t == INT4OID ==> r == Ok(Int32Codec)
    ensures t == FLOAT4OID ==> r == Ok(Float4Codec)
    ensures t == TEXTOID ==> r == Ok(TextCodec)
    ensures t == TIMESTAMPTZOID ==> r == Ok(Int64Codec)
  {
    if t == INT2OID then Ok(Int16Codec)
    else if t == INT4OID then Ok(Int32Codec)
    else if t == FLOAT4OID then Ok(Float4Codec)
    else if t == TEXTOID then Ok(TextCodec)
    else if t == TIMESTAMPTZOID then Ok(Int64Codec)   // TimestampTz is an int64
    else if t == InvalidOid then Err(INVALID_OID_TYPE)
    else Err(UNSUPPORTED_DATA_TYPE)
  }

  /** `get_deserializer`. */
  function GetDeserializer(t: Oid): (r: Result<Codec>)
    ensures r.Ok? <==> IsSupportedType(t)
    ensures t == InvalidOid ==> r == Err(INVALID_OID_TYPE)
    ensures t != InvalidOid && !IsSupportedType(t) ==> r == Err(UNSUPPORTED_DATA_TYPE)
    ensures t == INT2OID ==> r == Ok(Int16Codec)
    ensures t == INT4OID ==> r == Ok(Int32Codec)
    ensures t == FLOAT4OID ==> r == Ok(Float4Codec)
    ensures t == TEXTOID ==> r == Ok(TextCodec)
    ensures t == TIMESTAMPTZOID ==> r == Ok(Int64Codec)
  {
    if t == INT2OID then Ok(Int16Codec)
    else if t == INT4OID then Ok(Int32Codec)
    else if t == FLOAT4OID then Ok(Float4Codec)
    else if t == TEXTOID then Ok(TextCodec)
    else if t == TIMESTAMPTZOID then Ok(Int64Codec)
    else if t == InvalidOid then Err(INVALID_OID_TYPE)
    else Err(UNSUPPORTED_DATA_TYPE)
  }

  /** Slots the codec can write. */
  predicate Encodable(c: Codec, s: Slot) {
    match c
    case Int16Codec => s.Int? && IsInt16(s.v)
    case Int32Codec => s.Int? && IsInt32(s.v)
    case Int64Codec => s.Int? && IsInt64(s.v)
    case Float4Codec => s.Float?
    case TextCodec => s.TextRef? && ValidText(s.t)
  }

  function EncodeSlot(c: Codec, s: Slot): seq<byte>
    requires Encodable(c, s)
  {
    match c
    case Int16Codec => EncodeInt16(s.v)
    case Int32Codec => EncodeInt32(s.v)
    case Int64Codec => EncodeInt64(s.v)
    case Float4Codec => EncodeFloat4(s.bits)
    case TextCodec => EncodeText(s.t)
  }

  function DecodeSlot(c: Codec, bs: seq<byte>, cursor: nat): (r: Result<(Slot, nat)>)
    requires cursor <= |bs|
    ensures r.Ok? ==> cursor < r.value.1 <= |bs|
  {
    match c
    case Int16Codec =>
      (match DecodeInt16(bs, cursor) case Err(m) => Err(m) case Ok((v, n)) => Ok((Int(v), n)))
    case Int32Codec =>
      (match DecodeInt32(bs, cursor) case Err(m) => Err(m) case Ok((v, n)) => Ok((Int(v), n)))
    case Int64Codec =>
      (match DecodeInt64(bs, cursor) case Err(m) => Err(m) case Ok((v, n)) => Ok((Int(v), n)))
    case Float4Codec =>
      (match DecodeFloat4(bs, cursor) case Err(m) => Err(m) case Ok((b, n)) => Ok((Float(b), n)))
    case TextCodec =>
      (match DecodeText(bs, cursor) case Err(m) => Err(m) case Ok((t, n)) => Ok((TextRef(t), n)))
  }

  /** The slot a decoder produces for an encoded slot: text gets a fresh 4-byte header. */
  function Canonical(s: Slot): Slot {
    match s
    case TextRef(t) => TextRef(Varlena(false, t.payload))
    case _ => s
  }

  /** The serializer and the deserializer of every type are the same codec; timestamptz uses int64's. */
  lemma DispatchAgrees(t: Oid)
    ensures GetSerializer(t) == GetDeserializer(t)
  {
  }

  /**
   * The codec of a type writes exactly the slots valid for that type, and for
   * the fixed-width types its encoding is as wide as the slot the registry
   * allocates: the two tables agree on every width.
   */
  lemma CodecMatchesRegistry(t: Oid, s: Slot)
    requires IsSupportedType(t)
    ensures Encodable(GetSerializer(t).value, s) <==> SlotFits(t, s)
    ensures t != TEXTOID && SlotFits(t, s) ==>
      |EncodeSlot(GetSerializer(t).value, s)| == GetPointerArraySetterAndElementSize(t).value.elementSize
  {
  }

  /** Decoding an encoded slot, wherever it sits in a message, consumes exactly its bytes. */
  lemma SlotRoundTrip(c: Codec, s: Slot, pre: seq<byte>, post: seq<byte>)
    requires Encodable(c, s)
    ensures DecodeSlot(c, pre + EncodeSlot(c, s) + post, |pre|)
         == Ok((Canonical(s), |pre| + |EncodeSlot(c, s)|))
  {
    match c
    case Int16Codec => Int16SlotRoundTrip(s.v, pre, post);
    case Int32Codec => Int32SlotRoundTrip(s.v, pre, post);
    case Int64Codec => Int64SlotRoundTrip(s.v, pre, post);
    case Float4Codec => Float4SlotRoundTrip(s.bits, pre, post);
    case TextCodec => TextSlotRoundTrip(s.t, pre, post);
  }

  // The five cases of SlotRoundTrip, each through its codec's round trip.

  lemma Int16SlotRoundTrip(v: int, pre: seq<byte>, post: seq<byte>)
    requires IsInt16(v)
    ensures DecodeSlot(Int16Codec, pre + EncodeSlot(Int16Codec, Int(v)) + post, |pre|) == Ok((Int(v), |pre| + 2))
  {
    Int16RoundTrip(v, pre, post);
  }

  lemma Int32SlotRoundTrip(v: int, pre: seq<byte>, post: seq<byte>)
    requires IsInt32(v)
    ensures DecodeSlot(Int32Codec, pre + EncodeSlot(Int32Codec, Int(v)) + post, |pre|) == Ok((Int(v), |pre| + 4))
  {
    Int32RoundTrip(v, pre, post);
  }

  lemma Int64SlotRoundTrip(v: int, pre: seq<byte>, post: seq<byte>)
    requires IsInt64(v)
    ensures DecodeSlot(Int64Codec, pre + EncodeSlot(Int64Codec, Int(v)) + post, |pre|) == Ok((Int(v), |pre| + 8))
  {
    Int64RoundTrip(v, pre, post);
  }

  lemma Float4SlotRoundTrip(bits: Float4Bits, pre: seq<byte>, post: seq<byte>)
    ensures DecodeSlot(Float4Codec, pre + EncodeSlot(Float4Codec, Float(bits)) + post, |pre|) == Ok((Float(bits), |pre| + 4))
  {
    Float4RoundTrip(bits, pre, post);
  }

  lemma TextSlotRoundTrip(t: Text, pre: seq<byte>, post: seq<byte>)
    requires ValidText(t)
    ensures DecodeSlot(TextCodec, pre + EncodeSlot(TextCodec, TextRef(t)) + post, |pre|)
         == Ok((TextRef(Varlena(false, t.payload)), |pre| + |EncodeSlot(TextCodec, TextRef(t))|))
  {
    TextRoundTrip(t, pre, post);
  }

  // ---------------------------------------------------------------------
  // Sequences of elements

  predicate AllEncodable(c: Codec, ss: seq<Slot>) {
    forall i :: 0 <= i < |ss| ==> Encodable(c, ss[i])
  }

  /** Byte strings written back to back. */
  function Concat(parts: seq<seq<byte>>): seq<byte> {
    if parts == [] then [] else parts[0] + Concat(parts[1..])
  }

  /** The encoding of each element. */
  function Encodings(c: Codec, ss: seq<Slot>): (r: seq<seq<byte>>)
    requires AllEncodable(c, ss)
    ensures |r| == |ss|
  {
    seq(|ss|, i requires 0 <= i < |ss| => EncodeSlot(c, ss[i]))
  }

  /** The element encodings back to back, as the elements of a buffer are written. */
  function EncodeSlots(c: Codec, ss: seq<Slot>): seq<byte>
    requires AllEncodable(c, ss)
  {
    Concat(Encodings(c, ss))
  }

  /** Reads `count` elements one after the other from the cursor. */
  function DecodeSlots(c: Codec, bs: seq<byte>, cursor: nat, count: nat): (r: Result<(seq<Slot>, nat)>)
    requires cursor <= |bs|
    ensures r.Ok? ==> |r.value.0| == count && cursor <= r.value.1 <= |bs|
    decreases count
  {
    if count == 0 then Ok(([], cursor))
    else
      match DecodeSlot(c, bs, cursor)
      case Err(m) => Err(m)
      case Ok((s, next)) =>
        match DecodeSlots(c, bs, next, count - 1)
        case Err(m) => Err(m)
        case Ok((rest, last)) => Ok(([s] + rest, last))
  }

  function CanonicalAll(ss: seq<Slot>): (r: seq<Slot>)
    ensures |r| == |ss| && forall i :: 0 <= i < |ss| ==> r[i] == Canonical(ss[i])
  {
    if ss == [] then [] else [Canonical(ss[0])] + CanonicalAll(ss[1..])
  }

  lemma {:induction false} ConcatAppend(a: seq<seq<byte>>, b: seq<seq<byte>>)
    ensures Concat(a + b) == Concat(a) + Concat(b)
  {
    if a == [] {
      assert a + b == b;
    } else {
      assert (a + b)[0] == a[0] && (a + b)[1..] == a[1..] + b;
      ConcatAppend(a[1..], b);
    }
  }

  /** A concatenation is the parts before part `i`, part `i`, and the parts after. */
  lemma {:induction false} ConcatSplit(parts: seq<seq<byte>>, i: nat)
    requires i < |parts|
    ensures Concat(parts) == Concat(parts[..i]) + parts[i] + Concat(parts[i + 1..])
    ensures Concat(parts[..i + 1]) == Concat(parts[..i]) + parts[i]
  {
    var single := [parts[i]];
    assert Concat(single) == parts[i] by {
      assert single[1..] == [];
    }
    assert parts == parts[..i] + (single + parts[i + 1..]);
    ConcatAppend(parts[..i], single + parts[i + 1..]);
    ConcatAppend(single, parts[i + 1..]);
    assert parts[..i + 1] == parts[..i] + single;
    ConcatAppend(parts[..i], single);
  }

  /** Where each part starts, from `base`, and where the last one ends. */
  function Offsets(parts: seq<seq<byte>>, base: nat): (r: seq<nat>)
    ensures |r| == |parts| + 1 && r[0] == base
  {
    if parts == [] then [base] else [base] + Offsets(parts[1..], base + |parts[0]|)
  }

  lemma {:induction false} OffsetsAt(parts: seq<seq<byte>>, base: nat, i: nat)
    requires i <= |parts|
    ensures Offsets(parts, base)[i] == base + |Concat(parts[..i])|
  {
    if i > 0 {
      var tail := parts[1..];
      OffsetsAt(tail, base + |parts[0]|, i - 1);
      assert tail[..i - 1] == parts[..i][1..];
    }
  }

  /** The last offset is where the whole concatenation ends. */
  lemma {:induction false} OffsetsEnd(parts: seq<seq<byte>>, base: nat)
    ensures Offsets(parts, base)[|parts|] == base + |Concat(parts)|
  {
    OffsetsAt(parts, base, |parts|);
    assert parts[..|parts|] == parts;
  }

  /**
   * Part `i` of a concatenation framed by `pre` and `post`: the bytes before
   * it, the part itself, and the bytes after it, with the offsets of its two ends.
   */
  lemma {:induction false} Placement(parts: seq<seq<byte>>, pre: seq<byte>, post: seq<byte>, i: nat)
    requires i < |parts|
    ensures pre + Concat(parts) + post
         == (pre + Concat(parts[..i])) + parts[i] + (Concat(parts[i + 1..]) + post)
    ensures Offsets(parts, |pre|)[i] == |pre + Concat(parts[..i])|
    ensures Offsets(parts, |pre|)[i + 1] == |pre + Concat(parts[..i])| + |parts[i]|
  {
    ConcatSplit(parts, i);
    Regroup(pre, Concat(parts[..i]), parts[i], Concat(parts[i + 1..]), post);
    OffsetsAt(parts, |pre|, i);
    OffsetsAt(parts, |pre|, i + 1);
  }

  lemma Regroup(pre: seq<byte>, before: seq<byte>, here: seq<byte>, after: seq<byte>, post: seq<byte>)
    ensures pre + (before + here + after) + post == (pre + before) + here + (after + post)
  {
  }

  /** SlotRoundTrip, for a message and two cursors known only through equations. */
  lemma FramedRoundTrip(c: Codec, s: Slot, front: seq<byte>, back: seq<byte>, bs: seq<byte>, cursor: nat, next: nat)
    requires Encodable(c, s) && bs == front + EncodeSlot(c, s) + back
    requires cursor == |front| && next == |front| + |EncodeSlot(c, s)|
    ensures cursor <= |bs| && DecodeSlot(c, bs, cursor) == Ok((Canonical(s), next))
  {
    SlotRoundTrip(c, s, front, back);
  }

  /** Element `i` is read from offset `i` to offset `i + 1`. */
  predicate ReadsAt(c: Codec, bs: seq<byte>, ss: seq<Slot>, offs: seq<nat>, i: nat)
    requires i < |ss| && |offs| == |ss| + 1
  {
    offs[i] <= |bs| && DecodeSlot(c, bs, offs[i]) == Ok((ss[i], offs[i + 1]))
  }

  /** Every element is read from where the previous one stopped. */
  predicate ReadsInOrder(c: Codec, bs: seq<byte>, ss: seq<Slot>, offs: seq<nat>) {
    |offs| == |ss| + 1 && forall i :: 0 <= i < |ss| ==> ReadsAt(c, bs, ss, offs, i)
  }

  /**
   * Element `i`, decoded from a message holding the encodings of all elements
   * in order, starts where the encodings before it end and consumes exactly
   * its own encoding.
   */
  lemma {:induction false} ElementRoundTrip(c: Codec, ss: seq<Slot>, pre: seq<byte>, post: seq<byte>, bs: seq<byte>, offs: seq<nat>, i: nat)
    requires AllEncodable(c, ss) && i < |ss|
    requires bs == pre + EncodeSlots(c, ss) + post && offs == Offsets(Encodings(c, ss), |pre|)
    ensures ReadsAt(c, bs, CanonicalAll(ss), offs, i)
  {
    var parts := Encodings(c, ss);
    Placement(parts, pre, post, i);
    var front, back := pre + Concat(parts[..i]), Concat(parts[i + 1..]) + post;
    assert parts[i] == EncodeSlot(c, ss[i]);
    FramedRoundTrip(c, ss[i], front, back, bs, offs[i], offs[i + 1]);
  }

  lemma {:induction false} ElementsInOrder(c: Codec, ss: seq<Slot>, pre: seq<byte>, post: seq<byte>, bs: seq<byte>, offs: seq<nat>)
    requires AllEncodable(c, ss)
    requires bs == pre + EncodeSlots(c, ss) + post && offs == Offsets(Encodings(c, ss), |pre|)
    ensures ReadsInOrder(c, bs, CanonicalAll(ss), offs)
  {
    forall i | 0 <= i < |ss|
      ensures ReadsAt(c, bs, CanonicalAll(ss), offs, i)
    {
      ElementRoundTrip(c, ss, pre, post, bs, offs, i);
    }
  }

  /** Reading elements one after the other, when each read ends where the next begins. */
  lemma {:induction false} DecodeInOrder(c: Codec, bs: seq<byte>, ss: seq<Slot>, offs: seq<nat>)
    requires ReadsInOrder(c, bs, ss, offs) && offs[0] <= |bs|
    ensures DecodeSlots(c, bs, offs[0], |ss|) == Ok((ss, offs[|ss|]))
  {
    if ss != [] {
      assert ReadsAt(c, bs, ss, offs, 0);
      var ss', offs' := ss[1..], offs[1..];
      forall i | 0 <= i < |ss'|
        ensures ReadsAt(c, bs, ss', offs', i)
      {
        assert ReadsAt(c, bs, ss, offs, i + 1);
      }
      DecodeInOrder(c, bs, ss', offs');
      assert [ss[0]] + ss' == ss;
    }
  }

  /**
   * What a message holding the element encodings at `start` provides for
   * reading them back: each element reads back at its offset, the first
   * offset is `start` and the last one the end of the encodings.
   */
  lemma {:induction false} Layout(c: Codec, ss: seq<Slot>, bs: seq<byte>, start: nat, offs: seq<nat>)
    requires AllEncodable(c, ss)
    requires start + |EncodeSlots(c, ss)| <= |bs| && bs[start..start + |EncodeSlots(c, ss)|] == EncodeSlots(c, ss)
    requires offs == Offsets(Encodings(c, ss), start)
    ensures ReadsInOrder(c, bs, CanonicalAll(ss), offs) && |offs| == |ss| + 1
    ensures offs[0] == start && offs[|ss|] == start + |EncodeSlots(c, ss)|
  {
    var pre, post := bs[..start], bs[start + |EncodeSlots(c, ss)|..];
    assert bs == pre + EncodeSlots(c, ss) + post;
    ElementsInOrder(c, ss, pre, post, bs, offs);
    OffsetsEnd(Encodings(c, ss), start);
  }

  /** DecodeInOrder, from a cursor and to an end known only through equations. */
  lemma {:induction false} DecodeBetween(c: Codec, bs: seq<byte>, ss: seq<Slot>, count: nat, offs: seq<nat>, start: nat, end: nat)
    requires ReadsInOrder(c, bs, ss, offs)
    requires count == |ss| && offs[0] == start <= |bs| && offs[count] == end
    ensures DecodeSlots(c, bs, start, count) == Ok((ss, end))
  {
    DecodeInOrder(c, bs, ss, offs);
  }

  /**
   * Decoding a concatenation of element encodings recovers each element in
   * order and stops exactly at the end of the last one.
   */
  lemma {:induction false} SlotsRoundTrip(c: Codec, ss: seq<Slot>, bs: seq<byte>, start: nat)
    requires AllEncodable(c, ss)
    requires start + |EncodeSlots(c, ss)| <= |bs| && bs[start..start + |EncodeSlots(c, ss)|] == EncodeSlots(c, ss)
    ensures DecodeSlots(c, bs, start, |ss|) == Ok((CanonicalAll(ss), start + |EncodeSlots(c, ss)|))
  {
    var offs := Offsets(Encodings(c, ss), start);
    Layout(c, ss, bs, start, offs);
    DecodeBetween(c, bs, CanonicalAll(ss), |ss|, offs, start, start + |EncodeSlots(c, ss)|);
  }

  /** For the fixed-width codecs the round trip is exact. */
  lemma {:induction false} CanonicalAllNative(c: Codec, ss: seq<Slot>)
    requires c != TextCodec && AllEncodable(c, ss)
    ensures CanonicalAll(ss) == ss
  {
  }

  /** The payload of every text element survives the round trip. */
  lemma {:induction false} CanonicalAllText(ss: seq<Slot>, i: nat)
    requires AllEncodable(TextCodec, ss) && i < |ss|
    ensures CanonicalAll(ss)[i] == TextRef(Varlena(false, ss[i].t.payload))
  {
  }

  // ---------------------------------------------------------------------
  // The message buffer and the serializer/deserializer procedures

  /** A `StringInfo`: the bytes of a message and the read cursor. */
  class StringInfo {
    var data: seq<byte>
    var cursor: nat

    ghost predicate Valid()
      reads this
    {
      cursor <= |data|
    }

    constructor (bytes: seq<byte>)
      ensures Valid() && data == bytes && cursor == 0
    {
      data := bytes;
      cursor := 0;
    }
  }

  /** `pq_getmsgbytes`: hands out the next `n` bytes and advances the cursor. */
  method PqGetMsgBytes(buf: StringInfo, n: int) returns (r: Result<seq<byte>>)
    requires buf.Valid()
    modifies buf
    ensures buf.Valid() && buf.data == old(buf.data)
    ensures var g := GetMsgBytes(old(buf.data), old(buf.cursor), n);
      if g.Ok? then r == Ok(g.value.0) && buf.cursor == g.value.1
      else r == Err(g.message) && buf.cursor == old(buf.cursor)
  {
    var g := GetMsgBytes(buf.data, buf.cursor, n);
    if g.Err? {
      return Err(g.message);
    }
    buf.cursor := g.value.1;
    r := Ok(g.value.0);
  }

  method SerializeInt16(buf: StringInfo, p: Slot)
    requires Encodable(Int16Codec, p)
    modifies buf
    ensures buf.data == old(buf.data) + EncodeInt16(p.v) && buf.cursor == old(buf.cursor)
  {
    buf.data := buf.data + BigEndian(p.v % TWO_16, 2);
  }

  method SerializeInt32(buf: StringInfo, p: Slot)
    requires Encodable(Int32Codec, p)
    modifies buf
    ensures buf.data == old(buf.data) + EncodeInt32(p.v) && buf.cursor == old(buf.cursor)
  {
    buf.data := buf.data + BigEndian(p.v % TWO_32, 4);
  }

  method SerializeInt64(buf: StringInfo, p: Slot)
    requires Encodable(Int64Codec, p)
    modifies buf
    ensures buf.data == old(buf.data) + EncodeInt64(p.v) && buf.cursor == old(buf.cursor)
  {
    buf.data := buf.data + BigEndian(p.v % TWO_64, 8);
  }

  method SerializeFloat4(buf: StringInfo, p: Slot)
    requires Encodable(Float4Codec, p)
    modifies buf
    ensures buf.data == old(buf.data) + EncodeFloat4(p.bits) && buf.cursor == old(buf.cursor)
  {
    buf.data := buf.data + BigEndian(p.bits, 4);
  }

  /** Sends the payload length with `pq_sendint32`, then the payload with `pq_sendbytes`. */
  method SerializeText(buf: StringInfo, p: Slot)
    requires Encodable(TextCodec, p)
    modifies buf
    ensures buf.data == old(buf.data) + EncodeText(p.t) && buf.cursor == old(buf.cursor)
  {
    var textLen := VarSizeAnyExhdr(p.t);
    buf.data := buf.data + BigEndian(textLen, 4);
    buf.data := buf.data + p.t.payload;
  }

  /** A call through the serializer function pointer. */
  method Serialize(c: Codec, buf: StringInfo, p: Slot)
    requires Encodable(c, p)
    modifies buf
    ensures buf.data == old(buf.data) + EncodeSlot(c, p) && buf.cursor == old(buf.cursor)
  {
    match c
    case Int16Codec => SerializeInt16(buf, p);
    case Int32Codec => SerializeInt32(buf, p);
    case Int64Codec => SerializeInt64(buf, p);
    case Float4Codec => SerializeFloat4(buf, p);
    case TextCodec => SerializeText(buf, p);
  }

  /**
   * What a deserializer leaves behind when it succeeds: the cursor past the
   * element and the decoded slot in `data[idx]`, nothing else changed.
   */
  ghost predicate DecodedInto(r: Result<(Slot, nat)>, o: Outcome, cursor: nat,
                              data: seq<Slot>, oldData: seq<Slot>, idx: nat)
    requires idx < |oldData|
  {
    if r.Ok? then o == Pass && cursor == r.value.1 && data == oldData[idx := r.value.0]
    else o == Fail(r.message)
  }

  method DeserializeInt16(buf: StringInfo, data: array<Slot>, idx: nat) returns (o: Outcome)
    requires buf.Valid() && idx < data.Length
    modifies buf, data
    ensures buf.Valid() && buf.data == old(buf.data)
    ensures DecodedInto(DecodeSlot(Int16Codec, old(buf.data), old(buf.cursor)), o, buf.cursor,
                        data[..], old(data[..]), idx)
  {
    var raw := PqGetMsgBytes(buf, 2);
    if raw.Err? {
      return Fail(raw.message);
    }
    data[idx] := Int(Wrap16(FromBigEndian(raw.value)));
    o := Pass;
  }

  method DeserializeInt32(buf: StringInfo, data: array<Slot>, idx: nat) returns (o: Outcome)
    requires buf.Valid() && idx < data.Length
    modifies buf, data
    ensures buf.Valid() && buf.data == old(buf.data)
    ensures DecodedInto(DecodeSlot(Int32Codec, old(buf.data), old(buf.cursor)), o, buf.cursor,
                        data[..], old(data[..]), idx)
  {
    var raw := PqGetMsgBytes(buf, 4);
    if raw.Err? {
      return Fail(raw.message);
    }
    data[idx] := Int(Wrap32(FromBigEndian(raw.value)));
    o := Pass;
  }

  method DeserializeInt64(buf: StringInfo, data: array<Slot>, idx: nat) returns (o: Outcome)
    requires buf.Valid() && idx < data.Length
    modifies buf, data
    ensures buf.Valid() && buf.data == old(buf.data)
    ensures DecodedInto(DecodeSlot(Int64Codec, old(buf.data), old(buf.cursor)), o, buf.cursor,
                        data[..], old(data[..]), idx)
  {
    var raw := PqGetMsgBytes(buf, 8);
    if raw.Err? {
      return Fail(raw.message);
    }
    data[idx] := Int(Wrap64(FromBigEndian(raw.value)));
    o := Pass;
  }

  method DeserializeFloat4(buf: StringInfo, data: array<Slot>, idx: nat) returns (o: Outcome)
    requires buf.Valid() && idx < data.Length
    modifies buf, data
    ensures buf.Valid() && buf.data == old(buf.data)
    ensures DecodedInto(DecodeSlot(Float4Codec, old(buf.data), old(buf.cursor)), o, buf.cursor,
                        data[..], old(data[..]), idx)
  {
    var raw := PqGetMsgBytes(buf, 4);
    if raw.Err? {
      return Fail(raw.message);
    }
    FromBigEndianBound(raw.value);
    data[idx] := Float(FromBigEndian(raw.value));
    o := Pass;
  }

  /** Reads the length, then the payload, and stores a handle to a new varlena in `data[idx]`. */
  method DeserializeText(buf: StringInfo, data: array<Slot>, idx: nat) returns (o: Outcome)
    requires buf.Valid() && idx < data.Length
    modifies buf, data
    ensures buf.Valid() && buf.data == old(buf.data)
    ensures DecodedInto(DecodeSlot(TextCodec, old(buf.data), old(buf.cursor)), o, buf.cursor,
                        data[..], old(data[..]), idx)
  {
    var rawLength := PqGetMsgBytes(buf, 4);
    if rawLength.Err? {
      return Fail(rawLength.message);
    }
    var textLen := Wrap32(FromBigEndian(rawLength.value));
    var bytes := PqGetMsgBytes(buf, textLen);
    if bytes.Err? {
      return Fail(bytes.message);
    }
    var varsize := textLen + VARHDRSZ;
    if varsize > MAX_ALLOC_SIZE {
      return Fail(INVALID_ALLOC_SIZE);
    }
    data[idx] := TextRef(Varlena(false, bytes.value));
    o := Pass;
  }

  /** A call through the deserializer function pointer. */
  method Deserialize(c: Codec, buf: StringInfo, data: array<Slot>, idx: nat) returns (o: Outcome)
    requires buf.Valid() && idx < data.Length
    modifies buf, data
    ensures buf.Valid() && buf.data == old(buf.data)
    ensures DecodedInto(DecodeSlot(c, old(buf.data), old(buf.cursor)), o, buf.cursor,
                        data[..], old(data[..]), idx)
  {
    match c
    case Int16Codec => o := DeserializeInt16(buf, data, idx);
    case Int32Codec => o := DeserializeInt32(buf, data, idx);
    case Int64Codec => o := DeserializeInt64(buf, data, idx);
    case Float4Codec => o := DeserializeFloat4(buf, data, idx);
    case TextCodec => o := DeserializeText(buf, data, idx);
  }
}
