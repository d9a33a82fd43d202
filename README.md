# A verified model of the pg-median-aggregate accumulator

`median` is a PostgreSQL aggregate. Each non-NULL argument is appended into a
growable, typed state array (`median_transfn`). Partial states can be
concatenated (`array_combine`) and serialized element by element (the
`serialize_*` / `deserialize_*` codecs). At the end the array is sorted in
place, and its middle element, or the average of its two middle elements, is
returned (`median_finalfn`, `array_get_median`). A per-type registry supplies
three things: the slot setter and slot width, the comparator, and the codec.

The model is written in Dafny and has one module per C file:

| module | file | form |
|---|---|---|
| `PgTypes` (pgtypes.dfy) | PostgreSQL vocabulary | datatypes and functions: Oids, two's-complement wrap-around, Datum words, varlena text, Result/Outcome |
| `PointerArrayUtils` (pointer_array_utils.dfy) | pointer_array_utils.c | slot datatype, registry lookup as a function, the setters as methods that write one cell of an `array<Slot>` |
| `Comparators` (comparators.dfy) | comparators.c | pure functions and lemmas |
| `Serializers` (serializers.dfy) | serializers.c | big-endian codec functions with round-trip lemmas; a `StringInfo` class (bytes plus read cursor); serializers that append to it and deserializers that advance its cursor and write one slot |
| `StateArray` (array.dfy) | array.c | a class `Array` with the fields `capacity`, `length`, `elemType`, `arraySetter`, `elementSize` and `data: array<Slot>`; methods for create, extend, insert, combine, sort and median, each stated against `Contents()` (the live slots) |
| `Median` (median.dfy) | median.c | the transition and final functions as methods over `Array?`; `calculate_avg` as a function |

The fmgr glue becomes parameters. `AggCheckCallContext` is a boolean `inAggregate`.
`PG_ARGISNULL` / `PG_GETARG_*` is an `Option<Datum>` or an `Array?`.
`get_fn_expr_argtype` is an `argType`, and `PG_GET_COLLATION` is a `collation` Oid.
`elog(ERROR, msg)` becomes an `Err(msg)` / `Fail(msg)` result carrying the exact message. `elog(WARNING, msg)` followed by a NULL pointer
becomes a result constructor that carries the warning text next to the Datum.

Integers are unbounded in Dafny. Every C width is therefore explicit:
`Wrap16/32/64` keep the low bits in two's complement. A Datum is an unsigned
64-bit `Word`, and `(int)` of a 64-bit difference is `Wrap32`. C's `x / 2`, which
truncates toward zero, is `Half`.

Points where the code differs from what its comments or its evident design promise; the model follows the code except where noted:

- Growth. `array_insert` computes `capacity * 2` when the array is full, which leaves an array of capacity 0 at capacity 0. The model grows to `max(2 * capacity, 1)` instead (see Findings).
- Combining. `array_combine` makes no check that the two states hold the same element type. The model requires equal types of its caller (see Left out).
- Comparison. The integer comparator subtracts the two Datums and truncates the difference to `int`. The order it evidently intends is `COMPARE` of the signed values (see Findings), and the model sorts by that corrected order. `get_comparator` has no entry for text or timestamptz, so sorting a state of those types aborts with "unsupported data type"; the model keeps this. As a result two text branches are unreachable after a sort: the "even length" warning of `array_get_median` (array.c:205-207) through `GetMedian`, and the "2 text values" warning of `calculate_avg` (median.c:73-75) through `Finalfn`.
- Averaging. The two averaging paths differ. `array_get_median` uses AVG (`a/2 + b/2`). `median_finalfn` uses `calculate_avg`, which halves the sum. Both are modelled, and `Median.AveragingPathsDiffer` exhibits inputs on which they disagree.
- Struct layout. `array.h` declares a struct with `Datum *data` and no `element_size`. The model follows the fields that array.c uses.

## Model

| member | source | states |
|---|---|---|
| PgTypes.Wrap16 | pointer_array_utils.c:8-11 | the int16 conversion yields an int16 congruent to its argument modulo 2^16, and is the identity on int16 values |
| PgTypes.Wrap32 | pointer_array_utils.c:14-17 | the int32 conversion yields an int32 congruent modulo 2^32, the identity on int32 values |
| PgTypes.Wrap64 | pointer_array_utils.c:20-23 | the int64 conversion yields an int64 congruent modulo 2^64, the identity on int64 values |
| PgTypes.DatumIntegerRoundTrip | pointer_array_utils.c:8-23 | every int16, int32 and int64 survives conversion to a Datum word and back at its own width |
| PgTypes.DatumFloat4RoundTrip | pointer_array_utils.c:26-29 | a float4 bit pattern survives the trip through a (sign-extended) Datum |
| PointerArrayUtils.GetPointerArraySetterAndElementSize | pointer_array_utils.c:42-67 | succeeds exactly for the five supported types; InvalidOid gives "invalid oid type" and every other type "unsupported data type"; the width is that of the setter (2, 4, 8, 4, pointer size) and each type is pinned to its own setter: int2 to the int16 setter (width 2), int4 to int32 (4), timestamptz to int64 (8), float4 to float4 (4), text to text (pointer size) |
| PointerArrayUtils.StoredSlotFits | pointer_array_utils.c:7-35 | whatever Datum the registry's setter for a supported type is given, the slot it writes is a valid element of that type |
| PointerArrayUtils.StoredSlotReadsBack | pointer_array_utils.c:7-35 | the integer setters store any value of the slot's width unchanged, float4 keeps the bits, and text stores the handle it was given |
| PointerArrayUtils.Int16SetterTruncates | pointer_array_utils.c:8-11 | the int16 setter keeps only the low 16 bits of a wider word (0x1_0005 is stored as 5) |
| PointerArrayUtils.PointerArraySetInt16 | pointer_array_utils.c:7-11 | writes the value narrowed to int16 into slot `idx`; every other slot is unchanged |
| PointerArrayUtils.PointerArraySetInt32 | pointer_array_utils.c:13-17 | writes the value narrowed to int32 into slot `idx`; every other slot is unchanged |
| PointerArrayUtils.PointerArraySetInt64 | pointer_array_utils.c:19-23 | writes the int64 value into slot `idx`; every other slot is unchanged |
| PointerArrayUtils.PointerArraySetFloat4 | pointer_array_utils.c:25-29 | writes the float4 bits into slot `idx`; every other slot is unchanged |
| PointerArrayUtils.PointerArraySetText | pointer_array_utils.c:31-35 | writes the text handle (not a copy) into slot `idx`; every other slot is unchanged |
| PointerArrayUtils.PointerArraySet | pointer_array_utils.c:7-35 | a call through the setter pointer changes exactly slot `idx`, to the slot that setter stores |
| Comparators.Compare | comparators.c:13 | COMPARE is -1, 0 or 1 exactly when a < b, a == b or a > b, i.e. the sign of a - b |
| Comparators.CompareAntisymmetric | comparators.c:13 | COMPARE(a, b) == -COMPARE(b, a) |
| Comparators.DatumComparatorInteger | comparators.c:19-26 | the subtraction comparator returns an int32 congruent to l - r modulo 2^32 |
| Comparators.IntegerComparatorCorrectForInt16 | comparators.c:19-26 | for every pair of int16 values the subtraction comparator's sign orders them as the header comment promises |
| Comparators.IntegerComparatorWrongForInt32 | comparators.c:19-26 | for the int32 values -2^31 and 1 it returns 2^31 - 1, breaking the promise |
| Comparators.DatumComparatorIntegerFixed | comparators.c:6-26 | COMPARE on the signed values of the two Datums: in {-1, 0, 1} and ordering them as promised |
| Comparators.FixedComparatorCorrect | comparators.c:6-26 | the corrected comparator keeps the promise and is antisymmetric for every pair of int16, int32 or int64 values |
| Comparators.GetComparator | comparators.c:44-58 | the integer comparator for int2 and int4, the float comparator exactly for float4; InvalidOid gives "invalid oid type" and everything else, text and timestamptz included, "unsupported data type" |
| Comparators.NoComparatorForTextOrTimestamptz | comparators.c:44-58 | text and timestamptz are supported element types yet have no comparator |
| Serializers.FromBigEndianOfBigEndian | serializers.c:10-26 | reading back the n big-endian bytes of a value below 256^n gives the value |
| Serializers.BigEndianOfFromBigEndian | serializers.c:71-87 | re-encoding the value read from n bytes at width n reproduces the bytes |
| Serializers.Int16NetworkOrder | serializers.c:10-14 | an int16 is sent as two bytes, high byte first, of its unsigned 16-bit residue |
| Serializers.EncodeText | serializers.c:34-42 | a text is sent as 4 length bytes followed by exactly its payload, 4 + n bytes |
| Serializers.GetMsgBytes | serializers.c:99 | `pq_getmsgbytes` succeeds exactly when 0 <= n <= bytes left, returns n bytes and advances by n; otherwise "insufficient data left in message" |
| Serializers.GetMsgUnsigned | serializers.c:74 | `pq_getmsgint` reads an unsigned integer below 256^n and advances by n |
| Serializers.DecodeText | serializers.c:95-108 | a decoded text always has a 4-byte header and is a valid varlena |
| Serializers.Int16RoundTrip | serializers.c:71-75 | an int16 encoded anywhere in a message decodes to itself, negative values included, consuming 2 bytes |
| Serializers.Int32RoundTrip | serializers.c:77-81 | an int32 encoded anywhere in a message decodes to itself, consuming 4 bytes |
| Serializers.Int64RoundTrip | serializers.c:83-87 | an int64 (and timestamptz) encoded anywhere decodes to itself, consuming 8 bytes |
| Serializers.Float4RoundTrip | serializers.c:89-93 | float4 bits encoded anywhere decode to the same bits, consuming 4 bytes |
| Serializers.TextRoundTrip | serializers.c:95-108 | a text decodes to the same payload in a 4-byte-header varlena whose size is n + VARHDRSZ, consuming 4 + n bytes |
| Serializers.GetSerializer | serializers.c:44-64 | a codec exactly for the five supported types, each pinned to its own: int16's for int2, int32's for int4, float4's for float4, text's for text, int64's for timestamptz; "invalid oid type" for InvalidOid and "unsupported data type" otherwise |
| Serializers.GetDeserializer | serializers.c:110-130 | the same five types, each pinned to the same codec as for serializing, the same two errors |
| Serializers.DispatchAgrees | serializers.c:110-130 | the serializer table and the deserializer table pick the same codec for every Oid |
| Serializers.CodecMatchesRegistry | serializers.c:44-64 | a type's codec writes exactly the slots valid for the type, and a fixed-width encoding is as wide as the slot the registry allocates |
| Serializers.DecodeSlot | serializers.c:71-108 | a successful read always consumes at least one byte and stays in the message |
| Serializers.SlotRoundTrip | serializers.c:71-108 | any encodable slot read back at its position gives the slot (text with a fresh header) and consumes exactly its encoding |
| Serializers.DecodeSlots | serializers.c:71-108 | reading `count` elements yields `count` slots and a cursor within the message |
| Serializers.DecodeInOrder | serializers.c:71-108 | if each element reads back where the previous one ended, reading them one after the other returns them all and stops after the last |
| Serializers.SlotsRoundTrip | serializers.c:71-108 | wherever the concatenated encodings of a sequence of elements sit in a message, reading that many elements there returns the elements (texts with fresh headers) and stops exactly at the end of the encodings |
| Serializers.CanonicalAllNative | serializers.c:71-93 | for the fixed-width codecs the elements read back are exactly the elements written |
| Serializers.CanonicalAllText | serializers.c:95-108 | each text read back has the payload of the text written |
| Serializers.PqGetMsgBytes | serializers.c:99 | advances the buffer's cursor exactly as `GetMsgBytes` says, or leaves it in place on error; the bytes are unchanged |
| Serializers.SerializeInt16 | serializers.c:10-14 | appends the int16 encoding to the buffer |
| Serializers.SerializeInt32 | serializers.c:16-20 | appends the int32 encoding |
| Serializers.SerializeInt64 | serializers.c:22-26 | appends the int64 encoding |
| Serializers.SerializeFloat4 | serializers.c:28-32 | appends the float4 encoding |
| Serializers.SerializeText | serializers.c:34-42 | appends the length and then the payload, i.e. the text encoding |
| Serializers.Serialize | serializers.c:44-64 | a call through the serializer pointer appends the codec's encoding of the slot |
| Serializers.DeserializeInt16 | serializers.c:71-75 | on success stores the decoded int16 in slot `idx` and advances the cursor past it; otherwise reports the decoder's error |
| Serializers.DeserializeInt32 | serializers.c:77-81 | the same for int32 |
| Serializers.DeserializeInt64 | serializers.c:83-87 | the same for int64 |
| Serializers.DeserializeFloat4 | serializers.c:89-93 | the same for float4 bits |
| Serializers.DeserializeText | serializers.c:95-108 | reads the length and the payload, stores a fresh 4-byte-header varlena in slot `idx`, advances past both; errors as `DecodeText` |
| Serializers.Deserialize | serializers.c:110-130 | a call through the deserializer pointer does what `DecodeSlot` says to the cursor and to slot `idx` |
| StateArray.DoubledCapacityStaysZero | array.c:99-103 | doubling grows every positive capacity but leaves capacity 0 at 0 |
| StateArray.GrowCapacity | array.c:99-103 | the intended growth always exceeds the old capacity and doubles every positive one |
| StateArray.KeyOrderIsFixedComparator | array.c:143-158 | the order the model sorts by is the order of the corrected integer comparator |
| StateArray.SortSlotsCorrect | array.c:143-158 | the sorted slots are ordered and a permutation of the live slots |
| StateArray.SortedPermutationsEqual | array.c:143-158 | two ordered permutations of the same integers are equal, so the sorted result does not depend on the sort algorithm |
| StateArray.SortSlotsOnlyDependsOnElements | array.c:143-158 | sorting two arrangements of the same integer elements gives the same sequence |
| StateArray.SortSlotsFit | array.c:143-158 | sorting keeps the length and keeps every element valid for the type |
| StateArray.Half | array.c:6 | C's truncating halving: remainder 0 or 1 for non-negative values, 0 or -1 for negative ones |
| StateArray.AvgBounds | array.c:6 | AVG is symmetric; it is within 2 of twice the exact mean and within one of the segment between the operands; it stays in the operands' int16/int32/int64 range |
| StateArray.AvgOfEqualOddValues | array.c:6 | AVG(3, 3) is 2: each operand loses its remainder |
| StateArray.MedianOfSorted | array.c:160-211 | an error exactly for unsupported types; for integer types the middle element at odd lengths and AVG of the two middle elements at even lengths; for float4 the middle bits at odd lengths and the middle pair at even ones; for text the middle handle at odd lengths and a NULL pointer with the even-length warning at even ones |
| StateArray.MedianOddIsMiddle | array.c:167-186 | for an odd count of sorted integers the result is the middle one, no earlier element larger and no later one smaller |
| StateArray.MedianEvenAveragesMiddlePair | array.c:189-202 | for an even count the result is AVG of the two middle elements, within one of the segment between them and in the type's range |
| StateArray.MedianIgnoresOrder | array.c:160-211 | the median of integer elements depends only on the multiset of elements accumulated |
| StateArray.CopySlots | array.c:83 | the `memmove`/`memcpy` copies `n` slots to `dst[dstFrom..]` and leaves every other cell of `dst` unchanged |
| StateArray.AllocArrayData | array.c:14-25 | a fresh, zero-filled allocation of `capacity` slots |
| StateArray.Array.Init | array.c:32-46 | an empty valid array of the given capacity with the registry's setter and width |
| StateArray.Array.CreateWithCapacity | array.c:32-46 | an empty array of exactly the given capacity for a supported type, the registry's error otherwise |
| StateArray.Array.Create | array.c:52-56 | the same with capacity 1 |
| StateArray.Array.ExtendCapacity | array.c:74-87 | a fresh allocation of the new capacity holding the old slots, zero beyond them; the contents, length and type are unchanged |
| StateArray.Array.Insert | array.c:96-107 | the contents become the old contents plus the stored value; capacity grows exactly when the array was full; the array stays valid |
| StateArray.Array.Append | array.c:130-134 | the live slots become dest's followed by source's, in the same allocation |
| StateArray.Array.Qsort | array.c:143-158 | with a comparator, the live slots become their sorted permutation; without one, "unsupported data type" and nothing changes; the collation is ignored |
| StateArray.Array.GetMedian | array.c:160-211 | sorts, then returns `MedianOfSorted` of the sorted slots, or the comparator's error with the slots unchanged |
| StateArray.Combine | array.c:114-137 | the result holds dest's slots then source's, source unchanged; a NULL dest gives a fresh array of capacity exactly source's length; dest grows only without room, to exactly the combined length |
| StateArray.CombineEmptyIntoNull | array.c:117-121 | combining an empty source into NULL yields a valid array of capacity 0 |
| Median.CalculateAvg | median.c:51-80 | a NULL pointer with a warning exactly for text ("Cannot calculate average for 2 text values") and unsupported types ("Unsupported data type"); never an error |
| Median.CalculateAvgIsTruncatedMean | median.c:56-65 | when the sum is exact in single precision, the integer average is the mean truncated toward zero: symmetric, between the operands, within one half of the exact mean |
| Median.CalculateAvgExactForInt16 | median.c:56-65 | every pair of int16 values is averaged to its truncated mean |
| Median.AveragingPathsDiffer | median.c:56-65 | `calculate_avg` of 3 and 3 is 3 while AVG of 3 and 3 is 2 |
| Median.SlotDatumReadsStored | median.c:111 | the Datum the final function reads from a slot is the Datum the transition function stored there: every in-range integer of an integer type, every float4 bit pattern, every valid text handle |
| Median.FinalOfSorted | median.c:107-118 | the middle element exactly for odd counts, otherwise `calculate_avg` of element length/2 and element length/2 - 1 |
| Median.FinalIsMedian | median.c:107-118 | on sorted integers the result is the middle element, or for even counts, provided the middle pair's sum is within ±2^24 (exact in single precision), the truncated mean of the middle pair, which lies between them; half the elements are at most and half at least the median |
| Median.FinalIgnoresOrder | median.c:107-118 | the final result on integers depends only on the multiset of elements accumulated |
| Median.FinalIgnoresConcatenationOrder | median.c:107-118 | combining two partial states in either order gives the same final result |
| Median.AccumulatedConcat | median.c:34-45 | accumulating two runs of arguments gives the slots of the first run followed by those of the second |
| Median.AccumulatedSkipsNulls | median.c:34-45 | at most one slot per argument, and no slots exactly when every argument is NULL |
| Median.Transfn | median.c:23-48 | outside an aggregate, an error; a NULL argument returns the state as it was, NULL included, with its fields and slots unchanged; a NULL state is created for the argument's type and holds just the argument; an existing state gets one more slot, and its capacity grows exactly when it was full |
| Median.TransfnOverColumn | median.c:23-48 | calling the transition function once per row from a NULL state gives a state that is NULL exactly when every argument is NULL, and otherwise holds `Accumulated` of the arguments: one stored slot per non-NULL argument, in row order |
| Median.Finalfn | median.c:91-122 | outside an aggregate, an error; a NULL state gives SQL NULL; otherwise the state is sorted and the result is `FinalOfSorted` of it, or the comparator's error |

## Left out

- Memory contexts, `pfree`/`array_free` and the out-of-memory checks are not modelled. Allocation is `new` and cannot fail.
- The whole-state wire record (a length and type header before the elements) is not part of this model. It is not in these files; only the per-element codecs and reading elements in sequence are modelled.
- `pq_send*`/`pq_getmsg*` are modelled by their big-endian effect. Their error conditions are PostgreSQL's own: a negative or too long read fails with "insufficient data left in message", and a varlena above MaxAllocSize with "invalid memory alloc request size".
- Floating point is not modelled. Float4 values are carried as their 32-bit patterns through the setter, the codec and the odd median. Comparing and averaging them is left out.
- float4 averaging: `Float4Mean` and `HalvesSum` name the operands without computing the sum.
- Median.FinalIsMedian: the even-count claims are proved only when the middle pair's sum is within ±2^24, for the reason given for CalculateAvg.
- Median.CalculateAvg: when `|a + b|` exceeds 2^24, the `(float)` rounding of the sum is not modelled; the result is the symbolic `RoundedMean(a, b)`.
- StateArray.Array.Qsort: requires an element type other than float4, because the float4 comparator compares floating-point values.
- StateArray.Array.GetMedian: requires an element type other than float4 for the same reason. It also requires length ≥ 1: at length 0 the C code reads slot 0 and slot -1.
- Median.Finalfn: requires a non-float4 state of length ≥ 1. A non-NULL state always holds at least one element, because the transition function creates one only to insert a value.
- Median.Finalfn: reads element `length / 2` of the slots. median.c:111 indexes `state->data` as the stale header declares it (an array of Datum); the byte-level reinterpretation this implies for array.c's slot layout is not modelled.
- StateArray.Array.Qsort: sorts by the values the slots hold, in the corrected order of `COMPARE` on signed values, not by the subtracting int4 comparator of comparators.c:19-26. Qsort, GetMedian and Finalfn therefore do not reproduce the misordering of int4 values whose difference overflows (first Findings row). The comparator in the source also reads a full Datum at each slot address; that byte-level reading of narrower slots is not modelled.
- The library `qsort`/`qsort_arg` internals and text collation are not modelled. The sort is specified by its outcome, an ordered permutation, and is realised as an insertion sort by key.
- StateArray.Combine: requires dest and source to have the same element type, and distinct data arrays. The C code checks neither; with different types it would copy bytes of the source's width into slots of the destination's width.
- Median.Transfn: requires an existing state to have the argument's type. The aggregate always calls it with the same argument type.
- `DatumGetTextPP` detoasting is not modelled: the text setter stores the handle it is given.
- Text values are compared by content. Two handles to equal bytes are indistinguishable in the model.

## Findings

| source | as written | input that shows it | evidently intended | confidence | as-written member | corrected member |
|---|---|---|---|---|---|---|
| comparators.c:19-26 | `datum_comparator_integer` returns the 64-bit difference of the two Datums, truncated to `int` | the int32 values l = -2^31 and r = 1 give 2^31 - 1 > 0, so l sorts after r | `COMPARE` of the signed values, as the header comment promises | not executed | Comparators.IntegerComparatorWrongForInt32 | Comparators.FixedComparatorCorrect |
| array.c:99-103 | a full array grows to `capacity * 2` | `array_combine(NULL, empty)` gives capacity 0 (array.c:117-121); the next `array_insert` "grows" it to 0 and writes slot 0 of an empty allocation | grow to at least one more slot, `max(2 * capacity, 1)` | not executed | StateArray.DoubledCapacityStaysZero | StateArray.GrowCapacity |
