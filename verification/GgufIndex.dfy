/**
 What the native reader computes from the bytes of a file, and the round trip with encoded headers.
 */
module GgufIndex {
  import opened Bytes
  import opened GgufFormat
  import opened GgufOffsets
  import opened Options

  /** The native reader: no nesting limit, strings of at most 1 MiB, arrays of at most 10^8 elements. */
  const NATIVE := Limits(100000000, MAX_STRING, None)

  // ---------- Names ----------

  function Ascii(s: string): (r: seq<byte>)
    ensures |r| == |s| && forall i :: 0 <= i < |s| ==> r[i] == s[i] as int % 256
  {
    if s == [] then [] else [s[0] as int % 256] + Ascii(s[1..])
  }

  const ARCHITECTURE_KEY := Ascii("general.architecture")
  const ALIGNMENT_KEY := Ascii("general.alignment")
  const EXPERT_COUNT_SUFFIX := Ascii(".expert_count")
  const BLOCK := Ascii("blk.")
  const GATE := Ascii("ffn_gate_exps.weight")
  const DOWN := Ascii("ffn_down_exps.weight")
  const UP := Ascii("ffn_up_exps.weight")
  const DOT: byte := 46

  datatype Projection = Gate | Down | Up

  function Suffix(p: Projection): seq<byte> {
    match p
    case Gate => GATE
    case Down => DOWN
    case Up => UP
  }

  predicate IsExpertCountKey(key: seq<byte>) {
    |key| > |EXPERT_COUNT_SUFFIX| && key[|key| - |EXPERT_COUNT_SUFFIX|..] == EXPERT_COUNT_SUFFIX
  }

  /** Position of the first dot at or after `from`, or the length of the name. */
  function FindDot(name: seq<byte>, from: nat): (r: nat)
    requires from <= |name|
    ensures from <= r <= |name|
    decreases |name| - from
  {
    if from == |name| || name[from] == DOT then from else FindDot(name, from + 1)
  }

  predicate IsDigit(b: byte) { 48 <= b <= 57 }
  predicate IsSpace(b: byte) { b == 32 || 9 <= b <= 13 }

  function SkipSpaces(s: seq<byte>): seq<byte> {
    if s != [] && IsSpace(s[0]) then SkipSpaces(s[1..]) else s
  }

  function LeadingDigits(s: seq<byte>): (r: seq<byte>)
    ensures |r| <= |s|
  {
    if s != [] && IsDigit(s[0]) then [s[0]] + LeadingDigits(s[1..]) else []
  }

  function DigitValue(b: byte): nat {
    if IsDigit(b) then b - 48 else 0
  }

  function Decimal(digits: seq<byte>): nat {
    if digits == [] then 0 else 10 * Decimal(digits[..|digits| - 1]) + DigitValue(digits[|digits| - 1])
  }

  /** The C library's decimal conversion on 64-bit words: leading white space and a sign are accepted, what
      follows the digits is ignored, a negative number wraps around, and too large a number throws. */
  function Stoul(s: seq<byte>): Option<nat> {
    var t := SkipSpaces(s);
    var negative := t != [] && t[0] == 45;
    var digits := LeadingDigits(if t != [] && (t[0] == 45 || t[0] == 43) then t[1..] else t);
    if digits == [] || Decimal(digits) > MAX_U64 then None
    else if negative then Some((MAX_U64 + 1 - Decimal(digits)) % (MAX_U64 + 1))
    else Some(Decimal(digits))
  }

  /** `blk.<layer>.ffn_{gate,down,up}_exps.weight`; the layer is cut to 32 bits. */
  function ParseExpertName(name: seq<byte>): Option<(nat, Projection)> {
    if !(BLOCK <= name) then None
    else
      var end := FindDot(name, |BLOCK|);
      if end == |name| || end == |BLOCK| then None
      else match (Stoul(name[|BLOCK|..end]), ParseSuffix(name[end + 1..]))
        case (Some(layer), Some(projection)) => Some((layer % (MAX_U32 + 1), projection))
        case _ => None
  }

  function ParseSuffix(suffix: seq<byte>): Option<Projection> {
    if suffix == GATE then Some(Gate)
    else if suffix == DOWN then Some(Down)
    else if suffix == UP then Some(Up)
    else None
  }

  // ---------- Metadata ----------

  datatype Meta = Meta(architecture: seq<byte>, alignment: nat, experts: nat)

  const NO_META := Meta([], 32, 0)

  /** Reads or skips the value of one key. */
  function ReadValue(file: seq<byte>, p: nat, key: seq<byte>, t: nat, m: Meta): Read<Meta> {
    if key == ARCHITECTURE_KEY && t == STRING_TYPE then
      match String(file, p) {
        case Fail => Fail
        case Ok(text, next) => Ok(m.(architecture := text), next)
      }
    else if key == ALIGNMENT_KEY && t == UINT32_TYPE then
      match Number(file, p, 4) {
        case Fail => Fail
        case Ok(n, next) => Ok(m.(alignment := n), next)
      }
    else if IsExpertCountKey(key) && t == UINT32_TYPE then
      match Number(file, p, 4) {
        case Fail => Fail
        case Ok(n, next) => Ok(m.(experts := n), next)
      }
    else
      match Skip(file, p, t, 0, NATIVE)
      case None => Fail
      case Some(next) => Ok(m, next)
  }

  /** Reads the key and the value type that precede every value. */
  function ReadKey(file: seq<byte>, p: nat): Read<(seq<byte>, nat)> {
    match String(file, p)
    case Fail => Fail
    case Ok(key, q) =>
      match Number(file, q, 4)
      case Fail => Fail
      case Ok(t, next) => Ok((key, t), next)
  }

  function ScanKeyValues(file: seq<byte>, p: nat, count: nat, m: Meta): Read<Meta>
    decreases count
  {
    if count == 0 then Ok(m, p)
    else match ReadKey(file, p)
      case Fail => Fail
      case Ok((key, t), q) =>
        match ReadValue(file, q, key, t, m)
        case Fail => Fail
        case Ok(after, next) => ScanKeyValues(file, next, count - 1, after)
  }

  // ---------- Tensors ----------

  /** What the header says of the tensor library: how many types there are, and the bytes of one row. */
  datatype Ggml = Ggml(typeCount: nat, rowSize: (nat, nat) -> nat)

  datatype Slab = Slab(layer: nat, projection: Projection, offset: nat, bytes: nat)

  datatype Verdict = Ignore | Reject | Keep(slab: Slab)

  /** What the reader makes of one tensor info. */
  function Judge(t: TensorInfo, experts: nat, ggml: Ggml): Verdict {
    hide ParseExpertName, TensorBytes;
    match ParseExpertName(t.name)
    case None => Ignore
    case Some((layer, projection)) =>
      if experts == 0 || t.ggmlType >= ggml.typeCount then Ignore
      else
        var rowBytes := ggml.rowSize(t.ggmlType, t.shape[0]);
        if rowBytes == 0 then Ignore
        else match TensorBytes(t.shape[1..], rowBytes)
          case None => Reject
          case Some(bytes) => Keep(Slab(layer, projection, t.offset, bytes))
  }

  function ReadShape(file: seq<byte>, p: nat, count: nat): (r: Read<seq<nat>>)
    ensures r.Ok? ==> |r.value| == count && Positive(r.value)
    decreases count
  {
    if count == 0 then Ok([], p)
    else match Number(file, p, 8)
      case Fail => Fail
      case Ok(d, q) =>
        if d == 0 then Fail
        else match ReadShape(file, q, count - 1)
          case Fail => Fail
          case Ok(rest, next) => Ok([d] + rest, next)
  }

  function ReadTensor(file: seq<byte>, p: nat): Read<TensorInfo> {
    match String(file, p)
    case Fail => Fail
    case Ok(name, a) =>
      match Number(file, a, 4)
      case Fail => Fail
      case Ok(dims, b) =>
        if dims == 0 || dims > 4 then Fail
        else match ReadShape(file, b, dims)
          case Fail => Fail
          case Ok(shape, c) =>
            match Number(file, c, 4)
            case Fail => Fail
            case Ok(t, d) =>
              match Number(file, d, 8)
              case Fail => Fail
              case Ok(offset, e) => Ok(TensorInfo(name, shape, t, offset), e)
  }

  function ScanTensors(file: seq<byte>, p: nat, count: nat, experts: nat, ggml: Ggml,
                       pending: seq<Slab>): Read<seq<Slab>>
    decreases count
  {
    if count == 0 then Ok(pending, p)
    else match ReadTensor(file, p)
      case Fail => Fail
      case Ok(t, q) =>
        match Judge(t, experts, ggml)
        case Reject => Fail
        case Ignore => ScanTensors(file, q, count - 1, experts, ggml, pending)
        case Keep(slab) => ScanTensors(file, q, count - 1, experts, ggml, pending + [slab])
  }

  // ---------- The index ----------

  datatype Tensor = Tensor(layer: nat, projection: Projection, offset: nat, tensorBytes: nat, expertBytes: nat)

  datatype Index = Index(architecture: seq<byte>, experts: nat, tensors: seq<Tensor>)

  /** The last filter: the experts divide the tensor, and its first expert lies inside the file. */
  function Place(slabs: seq<Slab>, base: nat, size: nat, experts: nat): seq<Tensor>
    requires (experts > 0 || slabs == []) && base <= size
  {
    if slabs == [] then []
    else
      var s := slabs[|slabs| - 1];
      Place(slabs[..|slabs| - 1], base, size, experts) +
      if s.bytes % experts == 0 && s.offset <= size - base && s.bytes / experts <= size - (base + s.offset)
      then [Tensor(s.layer, s.projection, base + s.offset, s.bytes, s.bytes / experts)]
      else []
  }

  /** The slab as the index lists it, its first expert being inside the file. */
  ghost predicate Placed(t: Tensor, s: Slab, base: nat, size: nat, experts: nat) {
    && experts > 0 && s.bytes % experts == 0
    && t == Tensor(s.layer, s.projection, base + s.offset, s.bytes, s.bytes / experts)
    && t.offset + t.expertBytes <= size
  }

  /** The index lists exactly the slabs that the experts divide and whose first expert lies inside the file. */
  lemma {:induction false} PlacedExactly(slabs: seq<Slab>, base: nat, size: nat, experts: nat, t: Tensor)
    requires (experts > 0 || slabs == []) && base <= size
    ensures t in Place(slabs, base, size, experts) <==>
              exists i :: 0 <= i < |slabs| && Placed(t, slabs[i], base, size, experts)
  {
    if slabs != [] {
      var u := slabs[..|slabs| - 1];
      PlacedExactly(u, base, size, experts, t);
      if i :| 0 <= i < |slabs| && Placed(t, slabs[i], base, size, experts) {
        if i < |u| {
          assert Placed(t, u[i], base, size, experts);
        }
      }
      if t in Place(u, base, size, experts) {
        var i :| 0 <= i < |u| && Placed(t, u[i], base, size, experts);
        assert Placed(t, slabs[i], base, size, experts);
      } else if t in Place(slabs, base, size, experts) {
        assert Placed(t, slabs[|slabs| - 1], base, size, experts);
      }
    }
  }

  /** Without an expert count nothing is pending, which is all that keeps the last loop from dividing by zero. */
  lemma {:induction false} NoExpertsNothingPending(file: seq<byte>, p: nat, count: nat, ggml: Ggml, pending: seq<Slab>)
    requires ScanTensors(file, p, count, 0, ggml, pending).Ok?
    ensures ScanTensors(file, p, count, 0, ggml, pending).value == pending
    decreases count
  {
    hide ReadTensor, ParseExpertName;
    if count > 0 {
      NoExpertsNothingPending(file, ReadTensor(file, p).next, count - 1, ggml, pending);
    }
  }

  function Finish(size: nat, position: nat, m: Meta, slabs: seq<Slab>): Option<Index> {
    var base := AlignUp(position, m.alignment);
    if base == 0 || base > size || m.architecture == [] || m.experts == 0 then None
    else Some(Index(m.architecture, m.experts, Place(slabs, base, size, m.experts)))
  }

  /** The four fixed fields; the value is the pair of tensor count and key/value count. */
  function ReadPrelude(file: seq<byte>): Read<(nat, nat)> {
    if |file| < 4 || file[..4] != MAGIC then Fail
    else match Number(file, 4, 4)
      case Fail => Fail
      case Ok(version, _) =>
        if version < 2 || version > 3 then Fail
        else match Number(file, 8, 8)
          case Fail => Fail
          case Ok(tensors, _) =>
            match Number(file, 16, 8)
            case Fail => Fail
            case Ok(kvs, next) => if tensors > MAX_COUNT || kvs > MAX_COUNT then Fail else Ok((tensors, kvs), next)
  }

  function OpenIndex(file: seq<byte>, ggml: Ggml): Option<Index> {
    match ReadPrelude(file)
    case Fail => None
    case Ok((tensors, kvs), p) =>
      match ScanKeyValues(file, p, kvs, NO_META)
      case Fail => None
      case Ok(m, q) =>
        match ScanTensors(file, q, tensors, m.experts, ggml, [])
        case Fail => None
        case Ok(slabs, next) => Finish(|file|, next, m, slabs)
  }

  // ---------- What a header means ----------

  predicate NamesArchitecture(kv: KeyValue) { kv.key == ARCHITECTURE_KEY && kv.value.Text? }
  predicate SetsAlignment(kv: KeyValue) { kv.key == ALIGNMENT_KEY && kv.value.U32? }
  predicate CountsExperts(kv: KeyValue) { kv.key != ALIGNMENT_KEY && IsExpertCountKey(kv.key) && kv.value.U32? }

  /** The last key/value pair with the given property. */
  function Last(kvs: seq<KeyValue>, p: KeyValue -> bool): (r: Option<KeyValue>)
    ensures r.None? <==> forall i :: 0 <= i < |kvs| ==> !p(kvs[i])
    ensures r.Some? ==>
              exists i :: 0 <= i < |kvs| && kvs[i] == r.value && p(kvs[i]) && forall j :: i < j < |kvs| ==> !p(kvs[j])
  {
    if kvs == [] then None
    else if p(kvs[|kvs| - 1]) then Some(kvs[|kvs| - 1])
    else Last(kvs[..|kvs| - 1], p)
  }

  function TextOf(kv: KeyValue): seq<byte> {
    if kv.value.Text? then kv.value.text else []
  }

  function WordOf(kv: KeyValue): nat {
    if kv.value.U32? then kv.value.bits else 0
  }

  /** The metadata of a header, each field from its last qualifying pair. */
  function MetaOf(kvs: seq<KeyValue>): Meta {
    var a, n, e := Last(kvs, NamesArchitecture), Last(kvs, SetsAlignment), Last(kvs, CountsExperts);
    Meta(if a.Some? then TextOf(a.value) else [],
         if n.Some? then WordOf(n.value) else 32,
         if e.Some? then WordOf(e.value) else 0)
  }

  /** The experts' tensors of a header in order; None when one of them is too large for 64 bits. */
  function SlabsOf(tensors: seq<TensorInfo>, experts: nat, ggml: Ggml): Option<seq<Slab>> {
    if tensors == [] then Some([])
    else match SlabsOf(tensors[..|tensors| - 1], experts, ggml)
      case None => None
      case Some(slabs) =>
        match Judge(tensors[|tensors| - 1], experts, ggml)
        case Reject => None
        case Ignore => Some(slabs)
        case Keep(slab) => Some(slabs + [slab])
  }

  ghost predicate WellFormedTensor(t: TensorInfo) {
    && |t.name| <= MAX_STRING && |t.shape| <= 4
    && (forall i :: 0 <= i < |t.shape| ==> t.shape[i] <= MAX_U64)
    && t.ggmlType <= MAX_U32 && t.offset <= MAX_U64
  }

  ghost predicate WellFormedHeader(h: Header, maxArray: nat, depth: int) {
    && 2 <= h.version <= 3 && |h.kvs| <= MAX_COUNT && |h.tensors| <= MAX_COUNT
    && (forall i :: 0 <= i < |h.kvs| ==> |h.kvs[i].key| <= MAX_STRING && WellFormed(h.kvs[i].value, maxArray, depth))
    && (forall i :: 0 <= i < |h.tensors| ==> WellFormedTensor(h.tensors[i]))
  }

  function IndexOf(h: Header, size: nat, ggml: Ggml): Option<Index> {
    match SlabsOf(h.tensors, MetaOf(h.kvs).experts, ggml)
    case None => None
    case Some(slabs) => Finish(size, |EncodeHeader(h)|, MetaOf(h.kvs), slabs)
  }

  // ---------- The round trip ----------

  lemma PreludeRoundTrip(file: seq<byte>, h: Header)
    requires At(file, 0, EncodePrelude(h)) && 2 <= h.version <= 3 && |h.kvs| <= MAX_COUNT && |h.tensors| <= MAX_COUNT
    ensures ReadPrelude(file) == Ok((|h.tensors|, |h.kvs|), 24) && |EncodePrelude(h)| == 24
  {
    var counts := ToLE(|h.tensors|, 8) + ToLE(|h.kvs|, 8);
    AtSplit(file, 0, MAGIC, ToLE(h.version, 4) + counts);
    AtSplit(file, 4, ToLE(h.version, 4), counts);
    AtSplit(file, 8, ToLE(|h.tensors|, 8), ToLE(|h.kvs|, 8));
    Widths();
    NumberAt(file, 4, h.version, 4);
    NumberAt(file, 8, |h.tensors|, 8);
    NumberAt(file, 16, |h.kvs|, 8);
    assert file[..4] == file[0..4];
  }

  lemma KeyRoundTrip(file: seq<byte>, p: nat, kv: KeyValue)
    requires At(file, p, EncodeKeyValue(kv)) && |kv.key| <= MAX_STRING && TypeOf(kv.value) <= MAX_U32
    ensures ReadKey(file, p) == Ok((kv.key, TypeOf(kv.value)), p + |EncodeString(kv.key)| + 4)
    ensures At(file, p + |EncodeString(kv.key)| + 4, Encode(kv.value))
    ensures |EncodeKeyValue(kv)| == |EncodeString(kv.key)| + 4 + |Encode(kv.value)|
  {
    AtSplit(file, p, EncodeString(kv.key), ToLE(TypeOf(kv.value), 4) + Encode(kv.value));
    AtSplit(file, p + |EncodeString(kv.key)|, ToLE(TypeOf(kv.value), 4), Encode(kv.value));
    Widths();
    StringAt(file, p, kv.key);
    NumberAt(file, p + |EncodeString(kv.key)|, TypeOf(kv.value), 4);
  }

  function NoteValue(m: Meta, kv: KeyValue): Meta {
    if NamesArchitecture(kv) then m.(architecture := TextOf(kv))
    else if SetsAlignment(kv) then m.(alignment := WordOf(kv))
    else if CountsExperts(kv) then m.(experts := WordOf(kv))
    else m
  }

  lemma ValueRoundTrip(file: seq<byte>, p: nat, kv: KeyValue, m: Meta, depth: int)
    requires At(file, p, Encode(kv.value)) && WellFormed(kv.value, NATIVE.maxArray, depth) && depth >= 0
    ensures ReadValue(file, p, kv.key, TypeOf(kv.value), m) == Ok(NoteValue(m, kv), p + |Encode(kv.value)|)
  {
    hide Skip, Ascii;
    SkipEncoded(file, p, kv.value, 0, NATIVE, depth);
    if kv.value.Text? {
      StringAt(file, p, kv.value.text);
    } else if kv.value.U32? {
      Widths();
      NumberAt(file, p, kv.value.bits, 4);
    }
  }

  lemma TypeBound(v: Value, maxArray: nat, depth: int)
    requires WellFormed(v, maxArray, depth)
    ensures TypeOf(v) <= MAX_U32
  {
  }

  function NoteAll(m: Meta, kvs: seq<KeyValue>): Meta
    decreases |kvs|
  {
    if kvs == [] then m else NoteAll(NoteValue(m, kvs[0]), kvs[1..])
  }

  lemma {:induction false} KeyValuesRoundTrip(file: seq<byte>, p: nat, kvs: seq<KeyValue>, m: Meta, depth: int)
    requires At(file, p, EncodeKeyValues(kvs)) && depth >= 0
    requires forall i :: 0 <= i < |kvs| ==>
               |kvs[i].key| <= MAX_STRING && WellFormed(kvs[i].value, NATIVE.maxArray, depth)
    ensures ScanKeyValues(file, p, |kvs|, m) == Ok(NoteAll(m, kvs), p + |EncodeKeyValues(kvs)|)
    decreases |kvs|
  {
    hide ReadKey, ReadValue, WellFormed, NoteValue, EncodeKeyValue;
    if kvs != [] {
      var kv := kvs[0];
      var after := p + |EncodeKeyValue(kv)|;
      AtSplit(file, p, EncodeKeyValue(kv), EncodeKeyValues(kvs[1..]));
      TypeBound(kv.value, NATIVE.maxArray, depth);
      KeyRoundTrip(file, p, kv);
      ValueRoundTrip(file, p + |EncodeString(kv.key)| + 4, kv, m, depth);
      KeyValuesRoundTrip(file, after, kvs[1..], NoteValue(m, kv), depth);
    }
  }

  lemma {:induction false} NoteAllAppend(m: Meta, kvs: seq<KeyValue>, kv: KeyValue)
    ensures NoteAll(m, kvs + [kv]) == NoteValue(NoteAll(m, kvs), kv)
    decreases |kvs|
  {
    hide NoteValue;
    if kvs == [] {
      assert (kvs + [kv])[1..] == [];
      assert NoteAll(NoteValue(m, kv), []) == NoteValue(m, kv);
    } else {
      assert (kvs + [kv])[1..] == kvs[1..] + [kv];
      NoteAllAppend(NoteValue(m, kvs[0]), kvs[1..], kv);
    }
  }

  /** Scanning leaves in each field the last pair that sets it. */
  lemma {:induction false} NoteAllIsMetaOf(kvs: seq<KeyValue>)
    ensures NoteAll(NO_META, kvs) == MetaOf(kvs)
  {
    hide NamesArchitecture, SetsAlignment, CountsExperts;
    if kvs != [] {
      var u, kv := kvs[..|kvs| - 1], kvs[|kvs| - 1];
      assert kvs == u + [kv];
      NoteAllIsMetaOf(u);
      NoteAllAppend(NO_META, u, kv);
      OneRole(kv);
    }
  }

  /** No pair sets two fields. */
  lemma OneRole(kv: KeyValue)
    ensures !(NamesArchitecture(kv) && SetsAlignment(kv)) && !(NamesArchitecture(kv) && CountsExperts(kv))
    ensures !(SetsAlignment(kv) && CountsExperts(kv))
  {
    hide Ascii, IsExpertCountKey;
  }

  lemma {:induction false} ShapeRoundTrip(file: seq<byte>, p: nat, shape: seq<nat>)
    requires At(file, p, EncodeShape(shape)) && Positive(shape)
    requires forall i :: 0 <= i < |shape| ==> shape[i] <= MAX_U64
    ensures ReadShape(file, p, |shape|) == Ok(shape, p + |EncodeShape(shape)|)
    decreases |shape|
  {
    if shape != [] {
      AtSplit(file, p, ToLE(shape[0], 8), EncodeShape(shape[1..]));
      Widths();
      NumberAt(file, p, shape[0], 8);
      ShapeRoundTrip(file, p + 8, shape[1..]);
      assert shape == [shape[0]] + shape[1..];
    }
  }

  lemma TensorRoundTrip(file: seq<byte>, p: nat, t: TensorInfo)
    requires At(file, p, EncodeTensor(t)) && WellFormedTensor(t)
    ensures ReadTensor(file, p) == Ok(t, p + |EncodeTensor(t)|)
  {
    hide Number, String, ReadShape;
    var tail := ToLE(t.ggmlType, 4) + ToLE(t.offset, 8);
    var a := p + |EncodeString(t.name)|;
    var c := a + 4 + |EncodeShape(t.shape)|;
    AtSplit(file, p, EncodeString(t.name), ToLE(|t.shape|, 4) + (EncodeShape(t.shape) + tail));
    AtSplit(file, a, ToLE(|t.shape|, 4), EncodeShape(t.shape) + tail);
    AtSplit(file, a + 4, EncodeShape(t.shape), tail);
    AtSplit(file, c, ToLE(t.ggmlType, 4), ToLE(t.offset, 8));
    Widths();
    StringAt(file, p, t.name);
    NumberAt(file, a, |t.shape|, 4);
    ShapeRoundTrip(file, a + 4, t.shape);
    NumberAt(file, c, t.ggmlType, 4);
    NumberAt(file, c + 4, t.offset, 8);
  }

  lemma SlabsStep(all: seq<TensorInfo>, done: nat, experts: nat, ggml: Ggml)
    requires done < |all|
    ensures SlabsOf(all[..done + 1], experts, ggml) ==
              match SlabsOf(all[..done], experts, ggml)
              case None => None
              case Some(slabs) =>
                match Judge(all[done], experts, ggml)
                case Reject => None
                case Ignore => Some(slabs)
                case Keep(slab) => Some(slabs + [slab])
  {
    assert all[..done + 1][..done] == all[..done];
  }

  lemma NoSlabs(experts: nat, ggml: Ggml)
    ensures SlabsOf([], experts, ggml) == Some([])
  {
  }

  /** The scan from the middle of the list, given what the tensors before it contributed. */
  lemma {:induction false} TensorsRoundTrip(file: seq<byte>, p: nat, all: seq<TensorInfo>, done: nat, experts: nat,
                                            ggml: Ggml)
    requires done <= |all| && At(file, p, EncodeTensors(all[done..]))
    requires forall i :: 0 <= i < |all| ==> WellFormedTensor(all[i])
    requires SlabsOf(all[..done], experts, ggml).Some?
    ensures ScanTensors(file, p, |all| - done, experts, ggml, SlabsOf(all[..done], experts, ggml).value) ==
              match SlabsOf(all, experts, ggml)
              case None => Fail
              case Some(slabs) => Ok(slabs, p + |EncodeTensors(all[done..])|)
    decreases |all| - done
  {
    hide ReadTensor, Judge, SlabsOf, EncodeTensor, WellFormedTensor;
    if done == |all| {
      assert all[..done] == all;
    } else {
      var t := all[done];
      assert all[done..] == [t] + all[done + 1..];
      SlabsStep(all, done, experts, ggml);
      AtSplit(file, p, EncodeTensor(t), EncodeTensors(all[done + 1..]));
      TensorRoundTrip(file, p, t);
      if SlabsOf(all[..done + 1], experts, ggml).Some? {
        TensorsRoundTrip(file, p + |EncodeTensor(t)|, all, done + 1, experts, ggml);
      } else {
        RejectionStays(all, done + 1, experts, ggml);
      }
    }
  }

  lemma {:induction false} RejectionStays(all: seq<TensorInfo>, done: nat, experts: nat, ggml: Ggml)
    requires done <= |all| && SlabsOf(all[..done], experts, ggml).None?
    ensures SlabsOf(all, experts, ggml).None?
    decreases |all| - done
  {
    hide Judge, SlabsOf;
    if done == |all| {
      assert all[..done] == all;
    } else {
      SlabsStep(all, done, experts, ggml);
      RejectionStays(all, done + 1, experts, ggml);
    }
  }

  lemma AllTensorsRoundTrip(file: seq<byte>, p: nat, all: seq<TensorInfo>, experts: nat, ggml: Ggml)
    requires At(file, p, EncodeTensors(all)) && forall i :: 0 <= i < |all| ==> WellFormedTensor(all[i])
    ensures ScanTensors(file, p, |all|, experts, ggml, []) ==
              match SlabsOf(all, experts, ggml)
              case None => Fail
              case Some(slabs) => Ok(slabs, p + |EncodeTensors(all)|)
  {
    hide ScanTensors, SlabsOf, WellFormedTensor;
    assert all[0..] == all;
    assert all[..0] == [];
    NoSlabs(experts, ggml);
    TensorsRoundTrip(file, p, all, 0, experts, ggml);
  }

  /** Where the parts of an encoded header lie. */
  lemma Layout(file: seq<byte>, h: Header)
    requires At(file, 0, EncodeHeader(h)) && |EncodePrelude(h)| == 24
    ensures At(file, 0, EncodePrelude(h)) && At(file, 24, EncodeKeyValues(h.kvs))
    ensures At(file, 24 + |EncodeKeyValues(h.kvs)|, EncodeTensors(h.tensors))
    ensures |EncodeHeader(h)| == 24 + |EncodeKeyValues(h.kvs)| + |EncodeTensors(h.tensors)|
  {
    hide EncodePrelude, EncodeKeyValues, EncodeTensors, At;
    AtSplit(file, 0, EncodePrelude(h), EncodeKeyValues(h.kvs) + EncodeTensors(h.tensors));
    AtSplit(file, 24, EncodeKeyValues(h.kvs), EncodeTensors(h.tensors));
  }

  /** Parsing the bytes of a header yields exactly what the header means, whatever data follows it. */
  lemma HeaderRoundTrip(file: seq<byte>, h: Header, depth: int, ggml: Ggml)
    requires WellFormedHeader(h, NATIVE.maxArray, depth) && depth >= 0
    requires At(file, 0, EncodeHeader(h))
    ensures OpenIndex(file, ggml) == IndexOf(h, |file|, ggml)
  {
    hide ScanKeyValues, ScanTensors, ReadPrelude, MetaOf, NoteAll, Finish, SlabsOf, At,
      EncodeHeader, EncodePrelude, EncodeKeyValues, EncodeTensors, WellFormed, WellFormedTensor;
    PreludeSize(h);
    Layout(file, h);
    PreludeRoundTrip(file, h);
    KeyValuesRoundTrip(file, 24, h.kvs, NO_META, depth);
    NoteAllIsMetaOf(h.kvs);
    AllTensorsRoundTrip(file, 24 + |EncodeKeyValues(h.kvs)|, h.tensors, MetaOf(h.kvs).experts, ggml);
  }

  lemma PreludeSize(h: Header)
    ensures |EncodePrelude(h)| == 24
  {
  }
}
