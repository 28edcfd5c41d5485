/**
 The two hand-written readers as they move a file position: the native index reader, which reads the whole
 header, and the app's reader, which stops at the architecture.
 */
module GgufReaders {
  import opened Bytes
  import opened GgufFormat
  import opened GgufOffsets
  import opened GgufIndex
  import opened GgufArchitecture
  import opened Options

  /** A file position that only moves forward. A failed read may have moved it too; callers then give up. */
  class Cursor {
    const file: seq<byte>
    var pos: nat

    ghost predicate Valid()
      reads this
    {
      pos <= |file|
    }

    constructor (file: seq<byte>)
      ensures this.file == file && pos == 0 && Valid()
    {
      this.file, pos := file, 0;
    }

    /** One read call: nothing at the end of the file, otherwise between 1 and `count` of the bytes left. */
    method PRead(buffer: array<byte>, at: nat, count: nat) returns (n: nat)
      requires Valid() && 0 < count && at + count <= buffer.Length
      modifies buffer
      ensures n <= count && pos + n <= |file| && (n == 0 <==> pos == |file|)
      ensures buffer[..at + n] == old(buffer[..at]) + file[pos..pos + n]
    {
      if pos == |file| {
        return 0;
      }
      n :| 1 <= n <= count && pos + n <= |file|;
      forall i | at <= i < at + n {
        buffer[i] := file[pos + (i - at)];
      }
    }

    /** Assembles exactly `size` bytes from however many fragments, or fails at the end of the file. */
    method ReadBytes(size: nat) returns (bytes: Option<seq<byte>>)
      requires Valid()
      modifies this
      ensures Valid() && pos >= old(pos)
      ensures bytes == if old(pos) + size <= |file| then Some(file[old(pos)..old(pos) + size]) else None
      ensures bytes.Some? ==> pos == old(pos) + size
    {
      ghost var start := pos;
      var buffer := new byte[size](_ => 0);
      var done := 0;
      while done < size
        invariant pos == start + done <= |file| && done <= size
        invariant buffer[..done] == file[start..start + done]
      {
        var n := PRead(buffer, done, size - done);
        if n == 0 {
          return None;
        }
        assert file[start..start + done + n] == file[start..start + done] + file[start + done..start + done + n];
        done, pos := done + n, pos + n;
      }
      assert buffer[..] == buffer[..size];
      return Some(buffer[..]);
    }

    method ReadNumber(width: nat) returns (n: Option<nat>)
      requires Valid()
      modifies this
      ensures Valid() && pos >= old(pos)
      ensures match n
              case Some(v) => Number(file, old(pos), width) == Ok(v, pos)
              case None => Number(file, old(pos), width).Fail?
    {
      var bytes := ReadBytes(width);
      match bytes
      case None => return None;
      case Some(b) => return Some(FromLE(b));
    }

    method ReadString() returns (s: Option<seq<byte>>)
      requires Valid()
      modifies this
      ensures Valid() && pos >= old(pos)
      ensures match s case Some(v) => String(file, old(pos)) == Ok(v, pos) case None => String(file, old(pos)).Fail?
    {
      var length := ReadNumber(8);
      if length.None? || length.value > MAX_STRING {
        return None;
      }
      s := ReadBytes(length.value);
    }

    method ReadKeyAndType() returns (r: Option<(seq<byte>, nat)>)
      requires Valid()
      modifies this
      ensures Valid() && pos >= old(pos)
      ensures match r case Some(v) => ReadKey(file, old(pos)) == Ok(v, pos) case None => ReadKey(file, old(pos)).Fail?
    {
      var key := ReadString();
      if key.None? {
        return None;
      }
      var t := ReadNumber(4);
      if t.None? {
        return None;
      }
      return Some((key.value, t.value));
    }

    /** Reads over one value, array elements one by one; it terminates because every array consumes its own
        twelve bytes before its elements are looked at. */
    method SkipValue(t: nat, depth: nat, lim: Limits) returns (ok: bool)
      requires Valid()
      modifies this
      ensures Valid() && pos >= old(pos)
      ensures if ok then Skip(file, old(pos), t, depth, lim) == Some(pos) else Skip(file, old(pos), t, depth, lim).None?
      decreases |file| - pos
    {
      ghost var start := pos;
      if TooDeep(lim, depth) {
        return false;
      }
      if ScalarSize(t) > 0 {
        var bytes := ReadBytes(ScalarSize(t));
        return bytes.Some?;
      }
      if t == STRING_TYPE {
        var length := ReadNumber(8);
        if length.None? || length.value > lim.maxString {
          return false;
        }
        var bytes := ReadBytes(length.value);
        return bytes.Some?;
      }
      if t != ARRAY_TYPE {
        return false;
      }
      var elementType := ReadNumber(4);
      if elementType.None? {
        return false;
      }
      var count := ReadNumber(8);
      if count.None? || count.value > lim.maxArray {
        return false;
      }
      ghost var first := pos;
      assert Skip(file, start, t, depth, lim) == SkipMany(file, first, elementType.value, count.value, depth + 1, lim);
      for i := 0 to count.value
        invariant Valid() && pos >= first > start
        invariant SkipMany(file, first, elementType.value, count.value, depth + 1, lim) ==
                  SkipMany(file, pos, elementType.value, count.value - i, depth + 1, lim)
      {
        var skipped := SkipValue(elementType.value, depth + 1, lim);
        if !skipped {
          return false;
        }
      }
      return true;
    }
  }

  // ---------- The native index ----------

  class ExpertIndex {
    var architecture: seq<byte>
    var expertCount: nat
    var tensors: seq<Tensor>

    constructor () {
      architecture, expertCount, tensors := [], 0, [];
    }

    static method ReadOneValue(c: Cursor, key: seq<byte>, t: nat, m: Meta) returns (r: Option<Meta>)
      requires c.Valid()
      modifies c
      ensures c.Valid()
      ensures match r
              case Some(after) => ReadValue(c.file, old(c.pos), key, t, m) == Ok(after, c.pos)
              case None => ReadValue(c.file, old(c.pos), key, t, m).Fail?
    {
      if key == ARCHITECTURE_KEY && t == STRING_TYPE {
        var text := c.ReadString();
        return if text.None? then None else Some(m.(architecture := text.value));
      } else if key == ALIGNMENT_KEY && t == UINT32_TYPE {
        var n := c.ReadNumber(4);
        return if n.None? then None else Some(m.(alignment := n.value));
      } else if IsExpertCountKey(key) && t == UINT32_TYPE {
        var n := c.ReadNumber(4);
        return if n.None? then None else Some(m.(experts := n.value));
      } else {
        var ok := c.SkipValue(t, 0, NATIVE);
        return if ok then Some(m) else None;
      }
    }

    static method ReadMetadata(c: Cursor, count: nat) returns (r: Option<Meta>)
      requires c.Valid()
      modifies c
      ensures c.Valid()
      ensures match r
              case Some(m) => ScanKeyValues(c.file, old(c.pos), count, NO_META) == Ok(m, c.pos)
              case None => ScanKeyValues(c.file, old(c.pos), count, NO_META).Fail?
    {
      hide ReadKey, ReadValue;
      var m := NO_META;
      for i := 0 to count
        invariant c.Valid()
        invariant ScanKeyValues(c.file, old(c.pos), count, NO_META) == ScanKeyValues(c.file, c.pos, count - i, m)
      {
        var key := c.ReadKeyAndType();
        if key.None? {
          return None;
        }
        var after := ReadOneValue(c, key.value.0, key.value.1, m);
        if after.None? {
          return None;
        }
        m := after.value;
      }
      return Some(m);
    }

    static method ReadDimensions(c: Cursor, count: nat) returns (r: Option<seq<nat>>)
      requires c.Valid()
      modifies c
      ensures c.Valid()
      ensures match r
              case Some(shape) => ReadShape(c.file, old(c.pos), count) == Ok(shape, c.pos)
              case None => ReadShape(c.file, old(c.pos), count).Fail?
    {
      var shape := [];
      ghost var whole := ReadShape(c.file, c.pos, count);
      assert whole.Ok? ==> [] + whole.value == whole.value;
      for i := 0 to count
        invariant c.Valid()
        invariant match ReadShape(c.file, c.pos, count - i)
                  case Fail => ReadShape(c.file, old(c.pos), count).Fail?
                  case Ok(rest, next) => ReadShape(c.file, old(c.pos), count) == Ok(shape + rest, next)
      {
        var d := c.ReadNumber(8);
        if d.None? || d.value == 0 {
          return None;
        }
        ghost var rest := ReadShape(c.file, c.pos, count - i - 1);
        assert rest.Ok? ==> shape + ([d.value] + rest.value) == shape + [d.value] + rest.value;
        shape := shape + [d.value];
      }
      assert shape + [] == shape;
      return Some(shape);
    }

    static method ReadOneTensor(c: Cursor) returns (r: Option<TensorInfo>)
      requires c.Valid()
      modifies c
      ensures c.Valid()
      ensures match r
              case Some(t) => ReadTensor(c.file, old(c.pos)) == Ok(t, c.pos)
              case None => ReadTensor(c.file, old(c.pos)).Fail?
    {
      hide Number, String, ReadShape;
      var name := c.ReadString();
      if name.None? {
        return None;
      }
      var dims := c.ReadNumber(4);
      if dims.None? || dims.value == 0 || dims.value > 4 {
        return None;
      }
      var shape := ReadDimensions(c, dims.value);
      if shape.None? {
        return None;
      }
      var t := c.ReadNumber(4);
      if t.None? {
        return None;
      }
      var offset := c.ReadNumber(8);
      if offset.None? {
        return None;
      }
      return Some(TensorInfo(name.value, shape.value, t.value, offset.value));
    }

    static method ReadTensors(c: Cursor, count: nat, experts: nat, ggml: Ggml) returns (r: Option<seq<Slab>>)
      requires c.Valid()
      modifies c
      ensures c.Valid()
      ensures match r
              case Some(slabs) => ScanTensors(c.file, old(c.pos), count, experts, ggml, []) == Ok(slabs, c.pos)
              case None => ScanTensors(c.file, old(c.pos), count, experts, ggml, []).Fail?
    {
      hide ReadTensor, Judge;
      var pending: seq<Slab> := [];
      for i := 0 to count
        invariant c.Valid()
        invariant ScanTensors(c.file, old(c.pos), count, experts, ggml, []) ==
                  ScanTensors(c.file, c.pos, count - i, experts, ggml, pending)
      {
        var t := ReadOneTensor(c);
        if t.None? {
          return None;
        }
        match Judge(t.value, experts, ggml)
        case Reject => return None;
        case Ignore =>
        case Keep(slab) => pending := pending + [slab];
      }
      return Some(pending);
    }

    /** Words have 64 bits: each difference and sum below is taken where it stays within them. */
    static method PlaceAll(slabs: seq<Slab>, base: nat, size: nat, experts: nat) returns (placed: seq<Tensor>)
      requires (experts > 0 || slabs == []) && base <= size <= MAX_U64
      ensures placed == Place(slabs, base, size, experts)
      ensures forall t :: t in placed ==> base <= t.offset && t.offset + t.expertBytes <= size
    {
      placed := [];
      assert slabs[..|slabs|] == slabs;
      for i := 0 to |slabs|
        invariant placed == Place(slabs[..i], base, size, experts)
        invariant forall t :: t in placed ==> base <= t.offset && t.offset + t.expertBytes <= size
      {
        assert slabs[..i + 1][..i] == slabs[..i];
        var s := slabs[i];
        assert 0 <= size - base <= MAX_U64;
        if s.bytes % experts == 0 && s.offset <= size - base {
          var absolute, each := base + s.offset, s.bytes / experts;
          assert 0 <= absolute <= MAX_U64;
          if absolute <= size && each <= size - absolute {
            placed := placed + [Tensor(s.layer, s.projection, absolute, s.bytes, each)];
          }
        }
      }
    }

    static method ReadStart(c: Cursor) returns (r: Option<(nat, nat)>)
      requires c.Valid() && c.pos == 0
      modifies c
      ensures c.Valid()
      ensures match r case Some(v) => ReadPrelude(c.file) == Ok(v, c.pos) case None => ReadPrelude(c.file).Fail?
    {
      var magic := c.ReadBytes(4);
      if magic.None? || magic.value != MAGIC {
        return None;
      }
      var version := c.ReadNumber(4);
      if version.None? || version.value < 2 || version.value > 3 {
        return None;
      }
      var tensorCount := c.ReadNumber(8);
      if tensorCount.None? {
        return None;
      }
      var kvCount := c.ReadNumber(8);
      if kvCount.None? || tensorCount.value > MAX_COUNT || kvCount.value > MAX_COUNT {
        return None;
      }
      return Some((tensorCount.value, kvCount.value));
    }

    /** File sizes are non-negative signed 64-bit numbers. */
    method Open(file: seq<byte>, ggml: Ggml) returns (ok: bool)
      requires |file| <= MAX_LONG
      modifies this
      ensures ok <==> OpenIndex(file, ggml).Some?
      ensures ok ==> OpenIndex(file, ggml).value == Index(architecture, expertCount, tensors)
    {
      hide ReadPrelude, ScanKeyValues, ScanTensors, AlignUp, Place;
      tensors, architecture, expertCount := [], [], 0;
      var c := new Cursor(file);
      var start := ReadStart(c);
      if start.None? {
        return false;
      }
      var m := ReadMetadata(c, start.value.1);
      if m.None? {
        return false;
      }
      architecture, expertCount := m.value.architecture, m.value.experts;
      ghost var before := c.pos;
      var slabs := ReadTensors(c, start.value.0, expertCount, ggml);
      if slabs.None? {
        return false;
      }
      if expertCount == 0 {
        NoExpertsNothingPending(file, before, start.value.0, ggml, []);
      }
      var base := AlignUp(c.pos, m.value.alignment);
      if base == 0 || base > |file| {
        return false;
      }
      tensors := PlaceAll(slabs.value, base, |file|, expertCount);
      return architecture != [] && expertCount > 0;
    }
  }

  // ---------- The app's reader ----------

  method ReadAppStart(input: Cursor) returns (count: Option<nat>)
    requires input.Valid() && input.pos == 0
    modifies input
    ensures input.Valid()
    ensures match count
            case Some(n) => AppPrelude(input.file) == Ok(n, input.pos)
            case None => AppPrelude(input.file).Fail?
  {
    var magic := input.ReadNumber(4);
    if magic.None? || magic.value != GGUF_WORD {
      return None;
    }
    var version := input.ReadNumber(4);
    if version.None? || (version.value != 2 && version.value != 3) {
      return None;
    }
    var tensorCount := input.ReadNumber(8);
    if tensorCount.None? || tensorCount.value > MAX_LONG {
      return None;
    }
    count := input.ReadNumber(8);
    if count.None? || count.value > MAX_LONG || count.value > MAX_COUNT {
      return None;
    }
  }

  method FindArchitecture(input: Cursor, count: nat, blank: seq<byte> -> bool) returns (r: Option<seq<byte>>)
    requires input.Valid()
    modifies input
    ensures r == FirstArchitecture(input.file, old(input.pos), count, blank)
  {
    hide Skip, ReadKey, String, Ascii;
    for i := 0 to count
      invariant input.Valid()
      invariant FirstArchitecture(input.file, old(input.pos), count, blank) ==
                FirstArchitecture(input.file, input.pos, count - i, blank)
    {
      var key := input.ReadKeyAndType();
      if key.None? {
        return None;
      }
      if key.value.0 == ARCHITECTURE_KEY {
        if key.value.1 != STRING_TYPE {
          return None;
        }
        var text := input.ReadString();
        return if text.None? || blank(text.value) then None else text;
      }
      var ok := input.SkipValue(key.value.1, 0, APP);
      if !ok {
        return None;
      }
    }
    return None;
  }

  method ReadArchitectureOf(file: seq<byte>, blank: seq<byte> -> bool) returns (r: Option<seq<byte>>)
    ensures r == ArchitectureOf(file, blank)
  {
    hide AppPrelude, FirstArchitecture;
    var input := new Cursor(file);
    var count := ReadAppStart(input);
    if count.None? {
      return None;
    }
    r := FindArchitecture(input, count.value, blank);
  }
}
