/**
 What the app's early-exit reader computes, and when it agrees with the native reader.
 */
module GgufArchitecture {
  import opened Bytes
  import opened GgufFormat
  import opened GgufOffsets
  import opened GgufIndex
  import opened Options

  /** Lengths are signed 64-bit words and negative ones are refused. */
  const MAX_LONG := 0x7FFF_FFFF_FFFF_FFFF
  const GGUF_WORD := 0x46554747

  /** The app's reader: arrays of at most 10^7 elements, nested at most 8 deep, strings of any length. */
  const APP := Limits(10000000, MAX_LONG, Some(8))

  /** The first `general.architecture`, which must be a non-blank string. `blank` judges decoded bytes. */
  function FirstArchitecture(file: seq<byte>, p: nat, count: nat, blank: seq<byte> -> bool): Option<seq<byte>>
    decreases count
  {
    if count == 0 then None
    else match ReadKey(file, p)
      case Fail => None
      case Ok((key, t), q) =>
        if key == ARCHITECTURE_KEY then
          if t != STRING_TYPE then None
          else match String(file, q) {
            case Fail => None
            case Ok(text, _) => if blank(text) then None else Some(text)
          }
        else match Skip(file, q, t, 0, APP)
          case None => None
          case Some(next) => FirstArchitecture(file, next, count - 1, blank)
  }

  /** The fixed fields; the value is the key/value count. */
  function AppPrelude(file: seq<byte>): Read<nat> {
    match Number(file, 0, 4)
    case Fail => Fail
    case Ok(magic, _) =>
      if magic != GGUF_WORD then Fail
      else match Number(file, 4, 4)
        case Fail => Fail
        case Ok(version, _) =>
          if version != 2 && version != 3 then Fail
          else match Number(file, 8, 8)
            case Fail => Fail
            case Ok(tensors, _) =>
              if tensors > MAX_LONG then Fail
              else match Number(file, 16, 8)
                case Fail => Fail
                case Ok(count, p) => if count > MAX_LONG || count > MAX_COUNT then Fail else Ok(count, p)
  }

  function ArchitectureOf(file: seq<byte>, blank: seq<byte> -> bool): Option<seq<byte>> {
    match AppPrelude(file)
    case Fail => None
    case Ok(count, p) => FirstArchitecture(file, p, count, blank)
  }

  // ---------- The two readers side by side ----------

  /** The values of all `general.architecture` keys in the metadata, in order; None for one that is no string. */
  function Names(file: seq<byte>, p: nat, count: nat): seq<Option<seq<byte>>>
    decreases count
  {
    if count == 0 then []
    else match ReadKey(file, p)
      case Fail => []
      case Ok((key, t), q) =>
        match ReadValue(file, q, key, t, NO_META)
        case Fail => []
        case Ok(m, next) =>
          (if key != ARCHITECTURE_KEY then [] else if t == STRING_TYPE then [Some(m.architecture)] else [None])
          + Names(file, next, count - 1)
  }

  /** The latest string among the names, or `otherwise`. */
  function LastName(names: seq<Option<seq<byte>>>, otherwise: seq<byte>): seq<byte> {
    if names == [] then otherwise
    else LastName(names[1..], if names[0].Some? then names[0].value else otherwise)
  }

  /** How far a value reaches, and what it adds, does not depend on what was read before. */
  lemma ReadValueForgets(file: seq<byte>, p: nat, key: seq<byte>, t: nat, m: Meta)
    ensures ReadValue(file, p, key, t, m).Ok? <==> ReadValue(file, p, key, t, NO_META).Ok?
    ensures ReadValue(file, p, key, t, m).Ok? ==>
              var a, b := ReadValue(file, p, key, t, m), ReadValue(file, p, key, t, NO_META);
              a.next == b.next &&
              a.value.architecture ==
                if key == ARCHITECTURE_KEY && t == STRING_TYPE then b.value.architecture else m.architecture
  {
    hide Skip, String, Number, Ascii;
  }

  lemma {:induction false} NativeTakesLast(file: seq<byte>, p: nat, count: nat, m: Meta)
    requires ScanKeyValues(file, p, count, m).Ok?
    ensures ScanKeyValues(file, p, count, m).value.architecture == LastName(Names(file, p, count), m.architecture)
    decreases count
  {
    hide ReadKey, ReadValue, Ascii;
    if count > 0 {
      var key, t, q := ReadKey(file, p).value.0, ReadKey(file, p).value.1, ReadKey(file, p).next;
      ReadValueForgets(file, q, key, t, m);
      var after := ReadValue(file, q, key, t, m);
      NativeTakesLast(file, after.next, count - 1, after.value);
      var rest := Names(file, after.next, count - 1);
      if key == ARCHITECTURE_KEY {
        assert Names(file, p, count)[1..] == rest;
      } else {
        assert Names(file, p, count) == rest;
      }
    }
  }

  lemma {:induction false} AppTakesFirst(file: seq<byte>, p: nat, count: nat, m: Meta, blank: seq<byte> -> bool)
    requires ScanKeyValues(file, p, count, m).Ok? && FirstArchitecture(file, p, count, blank).Some?
    ensures Names(file, p, count) != [] && Names(file, p, count)[0] == FirstArchitecture(file, p, count, blank)
    decreases count
  {
    hide ReadKey, Skip, Ascii;
    if count > 0 {
      var key, t, q := ReadKey(file, p).value.0, ReadKey(file, p).value.1, ReadKey(file, p).next;
      ReadValueForgets(file, q, key, t, m);
      var after := ReadValue(file, q, key, t, m);
      if key != ARCHITECTURE_KEY {
        SamePlace(file, q, key, t, m);
        AppTakesFirst(file, after.next, count - 1, after.value, blank);
      }
    }
  }

  /** When both readers get past a value, they get to the same place. */
  lemma SamePlace(file: seq<byte>, q: nat, key: seq<byte>, t: nat, m: Meta)
    requires key != ARCHITECTURE_KEY && ReadValue(file, q, key, t, m).Ok? && Skip(file, q, t, 0, APP).Some?
    ensures ReadValue(file, q, key, t, m).next == Skip(file, q, t, 0, APP).value
  {
    hide Ascii, IsExpertCountKey;
    if Skip(file, q, t, 0, NATIVE).Some? {
      SkipsAgree(file, q, t, 0, NATIVE, 0, APP);
    }
  }

  lemma PreludesAgree(file: seq<byte>)
    requires ReadPrelude(file).Ok? && AppPrelude(file).Ok?
    ensures AppPrelude(file).value == ReadPrelude(file).value.1 && AppPrelude(file).next == ReadPrelude(file).next == 24
  {
  }

  /** The architecture keys of a file whose fixed fields the native reader accepts. */
  function AllNames(file: seq<byte>): seq<Option<seq<byte>>> {
    match ReadPrelude(file)
    case Fail => []
    case Ok((_, count), p) => Names(file, p, count)
  }

  /** An index that opens has scanned the metadata. */
  lemma NativeScans(file: seq<byte>, ggml: Ggml)
    requires OpenIndex(file, ggml).Some?
    ensures ReadPrelude(file).Ok?
    ensures var scan := ScanKeyValues(file, ReadPrelude(file).next, ReadPrelude(file).value.1, NO_META);
            scan.Ok? && OpenIndex(file, ggml).value.architecture == scan.value.architecture
  {
    hide ReadPrelude, ScanKeyValues, ScanTensors, AlignUp, Place;
  }

  lemma AppScans(file: seq<byte>, blank: seq<byte> -> bool)
    requires ArchitectureOf(file, blank).Some?
    ensures AppPrelude(file).Ok?
    ensures ArchitectureOf(file, blank) == FirstArchitecture(file, AppPrelude(file).next, AppPrelude(file).value, blank)
  {
    hide AppPrelude, FirstArchitecture;
  }

  /** On any bytes whatever that both readers accept: the app reports the first architecture in the metadata and
      the native reader the last one that is a string. So they agree on every file with a single architecture
      key, and in general if and only if the first and the last are equal. */
  lemma ReadersAgree(file: seq<byte>, ggml: Ggml, blank: seq<byte> -> bool)
    requires OpenIndex(file, ggml).Some? && ArchitectureOf(file, blank).Some?
    ensures var names := AllNames(file);
            && names != []
            && ArchitectureOf(file, blank) == names[0]
            && OpenIndex(file, ggml).value.architecture == LastName(names, [])
            && (|names| == 1 ==> Some(OpenIndex(file, ggml).value.architecture) == ArchitectureOf(file, blank))
  {
    hide OpenIndex, ArchitectureOf, ReadPrelude, AppPrelude, ScanKeyValues, FirstArchitecture;
    NativeScans(file, ggml);
    AppScans(file, blank);
    PreludesAgree(file);
    var count := ReadPrelude(file).value.1;
    NativeTakesLast(file, 24, count, NO_META);
    AppTakesFirst(file, 24, count, NO_META, blank);
    var names := Names(file, 24, count);
    if |names| == 1 {
      assert names[1..] == [];
    }
  }

  // ---------- Encoded headers ----------

  lemma AppPreludeRoundTrip(file: seq<byte>, h: Header)
    requires At(file, 0, EncodePrelude(h)) && 2 <= h.version <= 3 && |h.kvs| <= MAX_COUNT && |h.tensors| <= MAX_COUNT
    ensures AppPrelude(file) == Ok(|h.kvs|, 24)
  {
    PreludeRoundTrip(file, h);
    assert file[0..4] == MAGIC by {
      assert file[..4] == file[0..4];
    }
    MagicWord();
  }

  lemma MagicWord()
    ensures FromLE(MAGIC) == GGUF_WORD
  {
    assert MAGIC[1..] == [0x47, 0x55, 0x46];
    assert MAGIC[1..][1..] == [0x55, 0x46];
    assert MAGIC[1..][1..][1..] == [0x46];
    assert MAGIC[1..][1..][1..][1..] == [];
  }

  /** The app's reader finds the first architecture wherever it sits, past values of every kind. */
  lemma {:induction false} FirstArchitectureAt(file: seq<byte>, p: nat, kvs: seq<KeyValue>, i: nat,
                                               blank: seq<byte> -> bool)
    requires i < |kvs| && At(file, p, EncodeKeyValues(kvs))
    requires forall j :: 0 <= j <= i ==> |kvs[j].key| <= MAX_STRING && WellFormed(kvs[j].value, APP.maxArray, 8)
    requires forall j :: 0 <= j < i ==> kvs[j].key != ARCHITECTURE_KEY
    requires NamesArchitecture(kvs[i]) && !blank(kvs[i].value.text)
    ensures FirstArchitecture(file, p, |kvs|, blank) == Some(kvs[i].value.text)
    decreases i
  {
    hide ReadKey, Skip, Ascii, String, At, EncodeKeyValue, EncodeString;
    var kv := kvs[0];
    AtSplit(file, p, EncodeKeyValue(kv), EncodeKeyValues(kvs[1..]));
    TypeBound(kv.value, APP.maxArray, 8);
    KeyRoundTrip(file, p, kv);
    var q := p + |EncodeString(kv.key)| + 4;
    if i == 0 {
      StringAt(file, q, kv.value.text);
    } else {
      SkipEncoded(file, q, kv.value, 0, APP, 8);
      FirstArchitectureAt(file, p + |EncodeKeyValue(kv)|, kvs[1..], i - 1, blank);
    }
  }

  /** The first architecture key of the metadata. */
  function FirstNamed(kvs: seq<KeyValue>): Option<Value> {
    if kvs == [] then None
    else if kvs[0].key == ARCHITECTURE_KEY then Some(kvs[0].value)
    else FirstNamed(kvs[1..])
  }

  /** On encoded metadata the app's reader returns the first architecture if that is a non-blank string, and fails in
      every other case: a value of another type, a blank one, or none at all. */
  lemma {:induction false} AppReadsExactly(file: seq<byte>, p: nat, kvs: seq<KeyValue>, blank: seq<byte> -> bool)
    requires At(file, p, EncodeKeyValues(kvs))
    requires forall j :: 0 <= j < |kvs| ==> |kvs[j].key| <= MAX_STRING && WellFormed(kvs[j].value, APP.maxArray, 8)
    ensures FirstArchitecture(file, p, |kvs|, blank) ==
              match FirstNamed(kvs)
              case Some(Text(text)) => if blank(text) then None else Some(text)
              case _ => None
    decreases |kvs|
  {
    hide ReadKey, Skip, Ascii, String, At, EncodeKeyValue, EncodeString;
    if kvs != [] {
      var kv := kvs[0];
      AtSplit(file, p, EncodeKeyValue(kv), EncodeKeyValues(kvs[1..]));
      TypeBound(kv.value, APP.maxArray, 8);
      KeyRoundTrip(file, p, kv);
      var q := p + |EncodeString(kv.key)| + 4;
      if kv.key == ARCHITECTURE_KEY {
        if kv.value.Text? {
          StringAt(file, q, kv.value.text);
        }
      } else {
        SkipEncoded(file, q, kv.value, 0, APP, 8);
        AppReadsExactly(file, p + |EncodeKeyValue(kv)|, kvs[1..], blank);
      }
    }
  }

  // ---------- What the readers refuse ----------

  /** The native reader goes on exactly from the magic, version 2 or 3, and counts of at most a million. */
  lemma NativePreludeExactly(file: seq<byte>)
    ensures ReadPrelude(file).Ok? <==>
              && |file| >= 24 && file[..4] == [0x47, 0x47, 0x55, 0x46]
              && FromLE(file[4..8]) in {2, 3}
              && FromLE(file[8..16]) <= 1_000_000 && FromLE(file[16..24]) <= 1_000_000
  {
    hide FromLE;
  }

  lemma WordOfFour(s: seq<byte>)
    requires |s| == 4
    ensures FromLE(s) == s[0] as int + 256 * s[1] as int + 65536 * s[2] as int + 16777216 * s[3] as int
  {
    assert s[1..][1..] == s[2..] && s[2..][1..] == s[3..] && s[3..][1..] == [];
    assert FromLE(s[3..]) == s[3] as int;
    assert FromLE(s[2..]) == s[2] as int + 256 * FromLE(s[3..]);
    assert FromLE(s[1..]) == s[1] as int + 256 * FromLE(s[2..]);
  }

  /** The app's reader takes the same magic and versions; its tensor count need only be a signed word. */
  lemma AppPreludeExactly(file: seq<byte>)
    ensures AppPrelude(file).Ok? <==>
              && |file| >= 24 && file[0..4] == [0x47, 0x47, 0x55, 0x46]
              && FromLE(file[4..8]) in {2, 3}
              && FromLE(file[8..16]) <= 0x7FFF_FFFF_FFFF_FFFF && FromLE(file[16..24]) <= 1_000_000
  {
    hide FromLE;
    if |file| >= 4 {
      var m := file[0..4];
      WordOfFour(m);
      assert FromLE(m) == 0x46554747 <==> m[0] == 0x47 && m[1] == 0x47 && m[2] == 0x55 && m[3] == 0x46;
      assert m == [0x47, 0x47, 0x55, 0x46] <==> m[0] == 0x47 && m[1] == 0x47 && m[2] == 0x55 && m[3] == 0x46;
    }
  }

  /** What the native reader gets past is of a known type; strings are at most 1 MiB and arrays 10^8 long. */
  lemma NativeLimits(file: seq<byte>, p: nat, t: nat, depth: nat)
    requires Skip(file, p, t, depth, NATIVE).Some?
    ensures t <= 12
    ensures t == 8 ==> p + 8 <= |file| && FromLE(file[p..p + 8]) <= 1_048_576
    ensures t == 9 ==> p + 12 <= |file| && FromLE(file[p + 4..p + 12]) <= 100_000_000
  {
    hide FromLE, SkipMany;
  }

  /** What the app's reader gets past is of a known type, nested at most 8 deep, in arrays at most 10^7 long. */
  lemma AppLimits(file: seq<byte>, p: nat, t: nat, depth: nat)
    requires Skip(file, p, t, depth, APP).Some?
    ensures t <= 12 && depth <= 8
    ensures t == 9 ==> p + 12 <= |file| && FromLE(file[p + 4..p + 12]) <= 10_000_000
  {
    hide FromLE, SkipMany;
  }

  lemma {:induction false} TighterLimits(v: Value, low: nat, high: nat, depth: int)
    requires WellFormed(v, low, depth) && low <= high
    ensures WellFormed(v, high, depth)
    decreases v, 1
  {
    if v.Array? {
      AllTighterLimits(v.elements, v.elementType, low, high, depth - 1);
    }
  }

  lemma {:induction false} AllTighterLimits(vs: seq<Value>, t: nat, low: nat, high: nat, depth: int)
    requires AllWellFormed(vs, t, low, depth) && low <= high
    ensures AllWellFormed(vs, t, high, depth)
    decreases vs, 0
  {
    if vs != [] {
      TighterLimits(vs[0], low, high, depth);
      AllTighterLimits(vs[1..], t, low, high, depth);
    }
  }

  /** The promise of the two readers: for every header within both readers' limits with exactly one
      architecture key, a non-blank string, both read that string, wherever the key sits; the native reader
      keeps it whether or not the rest of the file makes an index. */
  lemma OneArchitectureForBoth(file: seq<byte>, h: Header, i: nat, ggml: Ggml, blank: seq<byte> -> bool)
    requires WellFormedHeader(h, APP.maxArray, 8) && At(file, 0, EncodeHeader(h))
    requires i < |h.kvs| && NamesArchitecture(h.kvs[i]) && !blank(h.kvs[i].value.text)
    requires forall j :: 0 <= j < |h.kvs| && j != i ==> h.kvs[j].key != ARCHITECTURE_KEY
    ensures ArchitectureOf(file, blank) == Some(h.kvs[i].value.text)
    ensures ReadPrelude(file) == Ok((|h.tensors|, |h.kvs|), 24)
    ensures var scan := ScanKeyValues(file, 24, |h.kvs|, NO_META);
            scan.Ok? && scan.value.architecture == h.kvs[i].value.text
    ensures OpenIndex(file, ggml).Some? ==> OpenIndex(file, ggml).value.architecture == h.kvs[i].value.text
  {
    hide AppPrelude, ReadPrelude, ScanKeyValues, FirstArchitecture, OpenIndex, Last, At, EncodeHeader, WellFormed,
      WellFormedTensor, Ascii, EncodePrelude, EncodeKeyValues, NoteAll;
    PreludeSize(h);
    Layout(file, h);
    AppPreludeRoundTrip(file, h);
    FirstArchitectureAt(file, 24, h.kvs, i, blank);
    forall j | 0 <= j < |h.kvs| ensures WellFormed(h.kvs[j].value, NATIVE.maxArray, 8) {
      TighterLimits(h.kvs[j].value, APP.maxArray, NATIVE.maxArray, 8);
    }
    PreludeRoundTrip(file, h);
    KeyValuesRoundTrip(file, 24, h.kvs, NO_META, 8);
    NoteAllIsMetaOf(h.kvs);
    OnlyOneLast(h.kvs, i);
    if OpenIndex(file, ggml).Some? {
      NativeScans(file, ggml);
    }
  }

  lemma OnlyOneLast(kvs: seq<KeyValue>, i: nat)
    requires i < |kvs| && NamesArchitecture(kvs[i])
    requires forall j :: 0 <= j < |kvs| && j != i ==> kvs[j].key != ARCHITECTURE_KEY
    ensures Last(kvs, NamesArchitecture) == Some(kvs[i])
  {
    hide Ascii;
  }
}
