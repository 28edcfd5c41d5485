/**
 The GGUF header as a value and as bytes ("File Structure" in the GGUF specification of the ggml project,
 little-endian, versions 2 and 3), and the primitive reads that both readers make.
 */
module GgufFormat {
  import opened Bytes
  import opened Options

  /** A value read from a position, with the position after it. */
  datatype Read<+T> = Fail | Ok(value: T, next: nat)

  const STRING_TYPE := 8
  const ARRAY_TYPE := 9
  const UINT32_TYPE := 4
  const MAX_STRING := 1024 * 1024
  const MAX_COUNT := 1000000

  /** Byte width of the fixed-size value types; 0 for strings, arrays and unknown types. */
  function ScalarSize(t: nat): nat {
    if t == 0 || t == 1 || t == 7 then 1
    else if t == 2 || t == 3 then 2
    else if t == 4 || t == 5 || t == 6 then 4
    else if t == 10 || t == 11 || t == 12 then 8
    else 0
  }

  /** One constructor for each value type; numbers, signed and floating-point ones too, are their bit patterns. */
  datatype Value =
    | U8(bits: nat) | I8(bits: nat) | U16(bits: nat) | I16(bits: nat) | U32(bits: nat) | I32(bits: nat)
    | F32(bits: nat) | Bool(bits: nat) | U64(bits: nat) | I64(bits: nat) | F64(bits: nat)
    | Text(text: seq<byte>)
    | Array(elementType: nat, elements: seq<Value>)

  datatype KeyValue = KeyValue(key: seq<byte>, value: Value)
  datatype TensorFields = TensorInfo(name: seq<byte>, shape: seq<nat>, ggmlType: nat, offset: nat)

  predicate Positive(dims: seq<nat>) {
    forall i :: 0 <= i < |dims| ==> dims[i] > 0
  }

  /** Readers reject a tensor without dimensions, or with an empty one, before they look at anything else. */
  type TensorInfo = t: TensorFields | t.shape != [] && Positive(t.shape) witness TensorInfo([], [1], 0, 0)
  datatype Header = Header(version: nat, kvs: seq<KeyValue>, tensors: seq<TensorInfo>)

  function TypeOf(v: Value): nat {
    match v
    case U8(_) => 0
    case I8(_) => 1
    case U16(_) => 2
    case I16(_) => 3
    case U32(_) => 4
    case I32(_) => 5
    case F32(_) => 6
    case Bool(_) => 7
    case Text(_) => 8
    case Array(_, _) => 9
    case U64(_) => 10
    case I64(_) => 11
    case F64(_) => 12
  }

  // ---------- Encoding ----------

  function EncodeString(s: seq<byte>): seq<byte> {
    ToLE(|s|, 8) + s
  }

  function Encode(v: Value): seq<byte>
    decreases v, 1
  {
    match v
    case U8(bits) => ToLE(bits, 1)
    case I8(bits) => ToLE(bits, 1)
    case Bool(bits) => ToLE(bits, 1)
    case U16(bits) => ToLE(bits, 2)
    case I16(bits) => ToLE(bits, 2)
    case U32(bits) => ToLE(bits, 4)
    case I32(bits) => ToLE(bits, 4)
    case F32(bits) => ToLE(bits, 4)
    case U64(bits) => ToLE(bits, 8)
    case I64(bits) => ToLE(bits, 8)
    case F64(bits) => ToLE(bits, 8)
    case Text(text) => EncodeString(text)
    case Array(t, elements) => ToLE(t, 4) + (ToLE(|elements|, 8) + EncodeAll(elements))
  }

  function EncodeAll(vs: seq<Value>): seq<byte>
    decreases vs, 0
  {
    if vs == [] then [] else Encode(vs[0]) + EncodeAll(vs[1..])
  }

  function EncodeKeyValue(kv: KeyValue): seq<byte> {
    EncodeString(kv.key) + (ToLE(TypeOf(kv.value), 4) + Encode(kv.value))
  }

  function EncodeKeyValues(kvs: seq<KeyValue>): seq<byte> {
    if kvs == [] then [] else EncodeKeyValue(kvs[0]) + EncodeKeyValues(kvs[1..])
  }

  function EncodeShape(shape: seq<nat>): seq<byte> {
    if shape == [] then [] else ToLE(shape[0], 8) + EncodeShape(shape[1..])
  }

  function EncodeTensor(t: TensorInfo): seq<byte> {
    EncodeString(t.name) + (ToLE(|t.shape|, 4) + (EncodeShape(t.shape) + (ToLE(t.ggmlType, 4) + ToLE(t.offset, 8))))
  }

  function EncodeTensors(ts: seq<TensorInfo>): seq<byte> {
    if ts == [] then [] else EncodeTensor(ts[0]) + EncodeTensors(ts[1..])
  }

  const MAGIC: seq<byte> := [0x47, 0x47, 0x55, 0x46]

  /** Everything before the key/value list. */
  function EncodePrelude(h: Header): seq<byte> {
    MAGIC + (ToLE(h.version, 4) + (ToLE(|h.tensors|, 8) + ToLE(|h.kvs|, 8)))
  }

  function EncodeHeader(h: Header): seq<byte> {
    EncodePrelude(h) + (EncodeKeyValues(h.kvs) + EncodeTensors(h.tensors))
  }

  // ---------- Well-formed headers ----------

  /** A value that can be written down, with arrays no longer than `maxArray` and nested at most `depth` deep. */
  ghost predicate WellFormed(v: Value, maxArray: nat, depth: int)
    decreases v, 1
  {
    match v
    case U8(bits) => bits <= 0xFF
    case I8(bits) => bits <= 0xFF
    case Bool(bits) => bits <= 0xFF
    case U16(bits) => bits <= 0xFFFF
    case I16(bits) => bits <= 0xFFFF
    case U32(bits) => bits <= 0xFFFF_FFFF
    case I32(bits) => bits <= 0xFFFF_FFFF
    case F32(bits) => bits <= 0xFFFF_FFFF
    case U64(bits) => bits <= 0xFFFF_FFFF_FFFF_FFFF
    case I64(bits) => bits <= 0xFFFF_FFFF_FFFF_FFFF
    case F64(bits) => bits <= 0xFFFF_FFFF_FFFF_FFFF
    case Text(text) => |text| <= MAX_STRING
    case Array(t, elements) =>
      t <= MAX_U32 && |elements| <= maxArray && depth > 0 && AllWellFormed(elements, t, maxArray, depth - 1)
  }

  ghost predicate AllWellFormed(vs: seq<Value>, t: nat, maxArray: nat, depth: int)
    decreases vs, 0
  {
    vs == [] || (TypeOf(vs[0]) == t && WellFormed(vs[0], maxArray, depth) && AllWellFormed(vs[1..], t, maxArray, depth))
  }

  // ---------- Primitive reads ----------

  function Number(file: seq<byte>, p: nat, width: nat): Read<nat> {
    if p + width <= |file| then Ok(FromLE(file[p..p + width]), p + width) else Fail
  }

  function String(file: seq<byte>, p: nat): Read<seq<byte>> {
    match Number(file, p, 8)
    case Fail => Fail
    case Ok(length, q) =>
      if length > MAX_STRING || q + length > |file| then Fail else Ok(file[q..q + length], q + length)
  }

  lemma NumberAt(file: seq<byte>, p: nat, n: nat, width: nat)
    requires At(file, p, ToLE(n, width)) && n < Pow256(width)
    ensures Number(file, p, width) == Ok(n, p + width)
  {
    FromToLE(n, width);
  }

  lemma StringAt(file: seq<byte>, p: nat, s: seq<byte>)
    requires At(file, p, EncodeString(s)) && |s| <= MAX_STRING
    ensures String(file, p) == Ok(s, p + |EncodeString(s)|)
  {
    AtSplit(file, p, ToLE(|s|, 8), s);
    Widths();
    NumberAt(file, p, |s|, 8);
  }

  // ---------- Skipping a value ----------

  function Left(file: seq<byte>, p: nat): nat {
    if p <= |file| then |file| - p else 0
  }

  /** The limits a reader imposes while skipping: array length, string length and nesting. */
  datatype Limits = Limits(maxArray: nat, maxString: nat, maxDepth: Option<nat>)

  predicate TooDeep(lim: Limits, depth: nat) {
    lim.maxDepth.Some? && depth > lim.maxDepth.value
  }

  /** The position after a value of type `t`, or None when the reader rejects it. */
  function Skip(file: seq<byte>, p: nat, t: nat, depth: nat, lim: Limits): (r: Option<nat>)
    ensures r.Some? ==> p < r.value <= |file|
    decreases Left(file, p), 0
  {
    if TooDeep(lim, depth) then None
    else if ScalarSize(t) > 0 then if p + ScalarSize(t) <= |file| then Some(p + ScalarSize(t)) else None
    else if t == STRING_TYPE then
      match Number(file, p, 8)
      case Fail => None
      case Ok(length, q) => if length > lim.maxString || q + length > |file| then None else Some(q + length)
    else if t == ARRAY_TYPE then
      match Number(file, p, 4)
      case Fail => None
      case Ok(elementType, q) =>
        match Number(file, q, 8)
        case Fail => None
        case Ok(count, start) =>
          if count > lim.maxArray then None else SkipMany(file, start, elementType, count, depth + 1, lim)
    else None
  }

  function SkipMany(file: seq<byte>, p: nat, t: nat, count: nat, depth: nat, lim: Limits): (r: Option<nat>)
    ensures r.Some? ==> p <= r.value && (p <= |file| ==> r.value <= |file|)
    decreases Left(file, p), 1 + count
  {
    if count == 0 then Some(p)
    else match Skip(file, p, t, depth, lim)
      case None => None
      case Some(q) => SkipMany(file, q, t, count - 1, depth, lim)
  }

  /** A value nested `used` deep below `depth` stays within the limits. */
  ghost predicate Room(lim: Limits, depth: nat, used: int) {
    used >= 0 && (lim.maxDepth.Some? ==> depth + used <= lim.maxDepth.value)
  }

  lemma SkipText(file: seq<byte>, p: nat, text: seq<byte>, depth: nat, lim: Limits)
    requires At(file, p, EncodeString(text)) && |text| <= MAX_STRING <= lim.maxString && !TooDeep(lim, depth)
    ensures Skip(file, p, STRING_TYPE, depth, lim) == Some(p + |EncodeString(text)|)
  {
    hide At, TooDeep;
    Widths();
    AtSplit(file, p, ToLE(|text|, 8), text);
    NumberAt(file, p, |text|, 8);
    AtFits(file, p + 8, text);
  }

  lemma AtFits(file: seq<byte>, p: nat, s: seq<byte>)
    requires At(file, p, s)
    ensures p + |s| <= |file|
  {
  }

  /** An array is read over by reading over its elements. */
  lemma SkipArray(file: seq<byte>, p: nat, t: nat, count: nat, rest: seq<byte>, depth: nat, lim: Limits)
    requires At(file, p, ToLE(t, 4) + (ToLE(count, 8) + rest))
    requires t <= MAX_U32 && count <= lim.maxArray <= MAX_U64 && !TooDeep(lim, depth)
    ensures At(file, p + 12, rest)
    ensures Skip(file, p, ARRAY_TYPE, depth, lim) == SkipMany(file, p + 12, t, count, depth + 1, lim)
  {
    hide At, SkipMany, TooDeep;
    Widths();
    AtSplit(file, p, ToLE(t, 4), ToLE(count, 8) + rest);
    AtSplit(file, p + 4, ToLE(count, 8), rest);
    NumberAt(file, p, t, 4);
    NumberAt(file, p + 4, count, 8);
  }

  /** Skipping consumes exactly the encoded value. */
  lemma {:induction false} SkipEncoded(file: seq<byte>, p: nat, v: Value, depth: nat, lim: Limits, used: int)
    requires At(file, p, Encode(v)) && WellFormed(v, lim.maxArray, used) && Room(lim, depth, used)
    requires lim.maxArray <= MAX_U64 && lim.maxString >= MAX_STRING
    ensures Skip(file, p, TypeOf(v), depth, lim) == Some(p + |Encode(v)|)
    decreases v, 1
  {
    match v
    case Text(text) => SkipText(file, p, text, depth, lim);
    case Array(t, elements) =>
      hide Skip, At;
      SkipArray(file, p, t, |elements|, EncodeAll(elements), depth, lim);
      SkipManyEncoded(file, p + 12, elements, t, depth + 1, lim, used - 1);
    case _ => SkipFixed(file, p, v, depth, lim);
  }

  /** The reader's table of widths gives every fixed-size type the width it is written with. */
  lemma SkipFixed(file: seq<byte>, p: nat, v: Value, depth: nat, lim: Limits)
    requires !v.Text? && !v.Array? && At(file, p, Encode(v)) && !TooDeep(lim, depth)
    ensures Skip(file, p, TypeOf(v), depth, lim) == Some(p + |Encode(v)|)
  {
    hide TooDeep;
  }

  lemma {:induction false} SkipManyEncoded(file: seq<byte>, p: nat, vs: seq<Value>, t: nat, depth: nat, lim: Limits,
                                           used: int)
    requires At(file, p, EncodeAll(vs)) && AllWellFormed(vs, t, lim.maxArray, used) && Room(lim, depth, used)
    requires lim.maxArray <= MAX_U64 && lim.maxString >= MAX_STRING
    ensures SkipMany(file, p, t, |vs|, depth, lim) == Some(p + |EncodeAll(vs)|)
    decreases vs, 0
  {
    if vs != [] {
      hide Skip, At;
      AtSplit(file, p, Encode(vs[0]), EncodeAll(vs[1..]));
      SkipEncoded(file, p, vs[0], depth, lim, used);
      SkipManyEncoded(file, p + |Encode(vs[0])|, vs[1..], t, depth, lim, used);
    }
  }

  /** Two readers that both get past a value, whatever their limits, get to the same place. */
  lemma {:induction false} SkipsAgree(file: seq<byte>, p: nat, t: nat, d1: nat, lim1: Limits, d2: nat, lim2: Limits)
    requires Skip(file, p, t, d1, lim1).Some? && Skip(file, p, t, d2, lim2).Some?
    ensures Skip(file, p, t, d1, lim1) == Skip(file, p, t, d2, lim2)
    decreases Left(file, p), 0
  {
    if ScalarSize(t) == 0 && t == ARRAY_TYPE {
      var elementType, q := Number(file, p, 4).value, Number(file, p, 4).next;
      var count, start := Number(file, q, 8).value, Number(file, q, 8).next;
      SkipsManyAgree(file, start, elementType, count, d1 + 1, lim1, d2 + 1, lim2);
    }
  }

  lemma {:induction false} SkipsManyAgree(file: seq<byte>, p: nat, t: nat, count: nat, d1: nat, lim1: Limits, d2: nat,
                                          lim2: Limits)
    requires SkipMany(file, p, t, count, d1, lim1).Some? && SkipMany(file, p, t, count, d2, lim2).Some?
    ensures SkipMany(file, p, t, count, d1, lim1) == SkipMany(file, p, t, count, d2, lim2)
    decreases Left(file, p), 1 + count
  {
    if count > 0 {
      SkipsAgree(file, p, t, d1, lim1, d2, lim2);
      SkipsManyAgree(file, Skip(file, p, t, d1, lim1).value, t, count - 1, d1, lim1, d2, lim2);
    }
  }
}
