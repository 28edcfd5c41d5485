/**
 The offline tool that computes expert ranges from the same tensors, and its agreement with the native index.
 */
module GgufOffsetsTool {
  import opened Bytes
  import opened GgufFormat
  import opened GgufOffsets
  import opened GgufIndex
  import opened Options

  // ---------- Names ----------

  const NEWLINE: byte := 10

  predicate EndsWith(tail: seq<byte>, suffix: seq<byte>) {
    tail == [DOT] + suffix || tail == [DOT] + suffix + [NEWLINE]
  }

  function MatchTail(tail: seq<byte>): Option<Projection> {
    if EndsWith(tail, GATE) then Some(Gate)
    else if EndsWith(tail, DOWN) then Some(Down)
    else if EndsWith(tail, UP) then Some(Up)
    else None
  }

  /** The tool's pattern: ASCII digits only, and nothing after the suffix but an optional final newline. */
  function MatchName(name: seq<byte>): Option<(nat, Projection)> {
    if !(BLOCK <= name) then None
    else
      var digits := LeadingDigits(name[|BLOCK|..]);
      match MatchTail(name[|BLOCK| + |digits|..])
      case None => None
      case Some(projection) => if digits == [] then None else Some((Decimal(digits), projection))
  }

  lemma {:induction false} LeadingDigitsFacts(s: seq<byte>)
    ensures LeadingDigits(s) <= s
    ensures forall i :: 0 <= i < |LeadingDigits(s)| ==> IsDigit(LeadingDigits(s)[i])
    ensures |LeadingDigits(s)| < |s| ==> !IsDigit(s[|LeadingDigits(s)|])
  {
    if s != [] && IsDigit(s[0]) {
      LeadingDigitsFacts(s[1..]);
    }
  }

  lemma {:induction false} LeadingDigitsOf(digits: seq<byte>)
    requires forall i :: 0 <= i < |digits| ==> IsDigit(digits[i])
    ensures LeadingDigits(digits) == digits
  {
    if digits != [] {
      LeadingDigitsOf(digits[1..]);
    }
  }

  lemma {:induction false} FindDotAt(name: seq<byte>, from: nat, end: nat)
    requires from <= end < |name| && name[end] == DOT
    requires forall i :: from <= i < end ==> name[i] != DOT
    ensures FindDot(name, from) == end
    decreases end - from
  {
    if from < end {
      FindDotAt(name, from + 1, end);
    }
  }

  lemma SuffixesDiffer()
    ensures ParseSuffix(GATE) == Some(Gate) && ParseSuffix(DOWN) == Some(Down) && ParseSuffix(UP) == Some(Up)
  {
    hide Ascii;
    assert GATE[4] != DOWN[4];
    assert |GATE| == |DOWN| == 20 && |UP| == 18;
  }

  lemma StoulOfDigits(digits: seq<byte>)
    requires digits != [] && forall i :: 0 <= i < |digits| ==> IsDigit(digits[i])
    ensures Stoul(digits) == if Decimal(digits) <= MAX_U64 then Some(Decimal(digits)) else None
  {
    hide Decimal, LeadingDigits;
    assert IsDigit(digits[0]);
    assert SkipSpaces(digits) == digits;
    LeadingDigitsOf(digits);
  }

  /** On every name the tool matches, newline aside, the native parser finds the same projection and the same
      layer, cut to 32 bits; it gives up exactly when the number needs more than 64. */
  lemma NamesAgree(name: seq<byte>)
    requires MatchName(name).Some? && name[|name| - 1] != NEWLINE
    ensures var (layer, projection) := MatchName(name).value;
            ParseExpertName(name) == if layer > MAX_U64 then None else Some((layer % (MAX_U32 + 1), projection))
  {
    hide Ascii, Stoul, LeadingDigits, Decimal, ParseSuffix;
    var digits := LeadingDigits(name[|BLOCK|..]);
    LeadingDigitsFacts(name[|BLOCK|..]);
    var end := |BLOCK| + |digits|;
    var tail := name[end..];
    var projection := MatchName(name).value.1;
    assert tail == [DOT] + Suffix(projection);
    assert name[|BLOCK|..end] == digits;
    forall i | |BLOCK| <= i < end ensures name[i] != DOT {
      assert name[i] == digits[i - |BLOCK|];
    }
    assert name[end] == tail[0];
    FindDotAt(name, |BLOCK|, end);
    assert name[end + 1..] == tail[1..] == Suffix(projection);
    StoulOfDigits(digits);
    SuffixesDiffer();
  }

  // ---------- The names that model files use ----------

  function Digits(n: nat): seq<byte> {
    if n < 10 then [48 + n] else Digits(n / 10) + [48 + n % 10]
  }

  lemma {:induction false} DigitsFacts(n: nat)
    ensures Digits(n) != [] && Decimal(Digits(n)) == n
    ensures forall i :: 0 <= i < |Digits(n)| ==> IsDigit(Digits(n)[i])
  {
    if n < 10 {
      assert Digits(n)[..0] == [];
    } else {
      DigitsFacts(n / 10);
      var d := Digits(n);
      assert d[..|d| - 1] == Digits(n / 10) && d[|d| - 1] == 48 + n % 10;
    }
  }

  function Ending(p: Projection): seq<byte> {
    match p
    case Gate => Ascii(".ffn_gate_exps.weight")
    case Down => Ascii(".ffn_down_exps.weight")
    case Up => Ascii(".ffn_up_exps.weight")
  }

  /** The name of a layer's merged expert tensor. */
  function NameOf(layer: nat, p: Projection): seq<byte> {
    Ascii("blk.") + (Digits(layer) + Ending(p))
  }

  lemma {:induction false} LeadingDigitsThen(digits: seq<byte>, rest: seq<byte>)
    requires forall i :: 0 <= i < |digits| ==> IsDigit(digits[i])
    requires rest != [] && !IsDigit(rest[0])
    ensures LeadingDigits(digits + rest) == digits
  {
    if digits == [] {
      assert digits + rest == rest;
    } else {
      assert (digits + rest)[1..] == digits[1..] + rest;
      LeadingDigitsThen(digits[1..], rest);
    }
  }

  lemma AsciiCons(s: string)
    requires s != "" && s[0] == '.'
    ensures Ascii(s) == [DOT] + Ascii(s[1..])
  {
    assert s[0] as int % 256 == 46;
  }

  lemma GateEnding()
    ensures Ending(Gate) == [DOT] + GATE
  {
    hide Ascii;
    AsciiCons(".ffn_gate_exps.weight");
    assert ".ffn_gate_exps.weight"[1..] == "ffn_gate_exps.weight";
  }

  lemma DownEnding()
    ensures Ending(Down) == [DOT] + DOWN
  {
    hide Ascii;
    AsciiCons(".ffn_down_exps.weight");
    assert ".ffn_down_exps.weight"[1..] == "ffn_down_exps.weight";
  }

  lemma UpEnding()
    ensures Ending(Up) == [DOT] + UP
  {
    hide Ascii;
    AsciiCons(".ffn_up_exps.weight");
    assert ".ffn_up_exps.weight"[1..] == "ffn_up_exps.weight";
  }

  lemma EndingIs(p: Projection)
    ensures Ending(p) == [DOT] + Suffix(p)
  {
    hide Ascii, Ending;
    GateEnding();
    DownEnding();
    UpEnding();
  }

  lemma SuffixSizes()
    ensures |GATE| == |DOWN| == 20 && |UP| == 18 && GATE[4] != DOWN[4]
    ensures GATE[19] == DOWN[19] == UP[17] == 116
  {
    hide Ascii;
  }

  lemma EndsWithSize(tail: seq<byte>, suffix: seq<byte>)
    ensures EndsWith(tail, suffix) ==> |suffix| + 1 <= |tail| <= |suffix| + 2
    ensures EndsWith(tail, suffix) && |suffix| > 4 ==> tail[5] == suffix[4]
  {
  }

  lemma EndingMatches(p: Projection)
    ensures MatchTail([DOT] + Suffix(p)) == Some(p)
  {
    hide Ascii, EndsWith;
    SuffixSizes();
    var tail := [DOT] + Suffix(p);
    assert EndsWith(tail, Suffix(p)) by { EndsItself(Suffix(p)); }
    EndsWithSize(tail, GATE);
    EndsWithSize(tail, DOWN);
    EndsWithSize(tail, UP);
    assert tail[5] == Suffix(p)[4];
  }

  lemma EndsItself(suffix: seq<byte>)
    ensures EndsWith([DOT] + suffix, suffix)
  {
  }

  lemma EndingFacts(p: Projection)
    ensures Ending(p) != [] && Ending(p)[0] == DOT && MatchTail(Ending(p)) == Some(p)
    ensures Ending(p)[|Ending(p)| - 1] != NEWLINE
  {
    hide Ascii, Ending, MatchTail;
    EndingIs(p);
    EndingMatches(p);
    SuffixSizes();
  }

  lemma NameParts(layer: nat, p: Projection)
    ensures var name, digits := NameOf(layer, p), Digits(layer);
            && |name| == 4 + |digits| + |Ending(p)| && Ending(p) != []
            && BLOCK <= name && name[4..] == digits + Ending(p)
            && name[4 + |digits|..] == Ending(p)
            && name[|name| - 1] == Ending(p)[|Ending(p)| - 1]
  {
    hide Ascii, Digits, Ending, MatchTail;
    EndingFacts(p);
    var name, digits := NameOf(layer, p), Digits(layer);
    assert |BLOCK| == 4 && name[..4] == BLOCK;
  }

  /** Both parsers read back the layer and the projection of every such name; the native one up to 32 bits. */
  lemma NamesRoundTrip(layer: nat, p: Projection)
    ensures MatchName(NameOf(layer, p)) == Some((layer, p))
    ensures layer <= 0xFFFF_FFFF ==> ParseExpertName(NameOf(layer, p)) == Some((layer, p))
  {
    hide ParseExpertName, MatchName, NameOf;
    NameMatches(layer, p);
    NameEnds(layer, p);
    NamesAgree(NameOf(layer, p));
  }

  lemma NameEnds(layer: nat, p: Projection)
    ensures NameOf(layer, p) != [] && NameOf(layer, p)[|NameOf(layer, p)| - 1] != NEWLINE
  {
    hide Ascii, Digits, Ending, MatchTail, NameOf;
    NameParts(layer, p);
    EndingFacts(p);
  }

  lemma NameMatches(layer: nat, p: Projection)
    ensures MatchName(NameOf(layer, p)) == Some((layer, p))
  {
    hide Ascii, LeadingDigits, Digits, Ending, MatchTail, Decimal, NameOf;
    NameParts(layer, p);
    DigitsFacts(layer);
    EndingFacts(p);
    LeadingDigitsThen(Digits(layer), Ending(p));
    assert |BLOCK| == 4;
  }

  // ---------- Extraction ----------

  /** The bytes of one expert. */
  function Share(bytes: nat, experts: nat): nat {
    if experts == 0 then 0 else bytes / experts
  }

  /** A tensor as the tool's GGUF library reports it: total bytes, and absolute offset of its data. */
  datatype Reported = Reported(name: seq<byte>, ggmlType: nat, shape: seq<nat>, bytes: nat, dataOffset: nat)

  /** The description of a tensor with the ranges of its experts. */
  datatype Entry = Entry(tensor: Reported, experts: seq<Range>)

  type Layers = map<nat, map<Projection, Entry>>

  function Store(layers: Layers, layer: nat, projection: Projection, entry: Entry): Layers {
    layers[layer := (if layer in layers then layers[layer] else map[])[projection := entry]]
  }

  function EntryOf(t: Reported, experts: nat): Entry {
    Entry(t, Ranges(t.dataOffset, Share(t.bytes, experts), experts))
  }

  /** None when the tensor matches but is not divisible by the expert count, or that count is zero. */
  function AddTensor(layers: Layers, t: Reported, experts: nat): Option<Layers> {
    hide MatchName, Store, EntryOf;
    match MatchName(t.name)
    case None => Some(layers)
    case Some((layer, projection)) =>
      if experts == 0 || t.bytes % experts != 0 then None
      else Some(Store(layers, layer, projection, EntryOf(t, experts)))
  }

  function Extract(tensors: seq<Reported>, experts: nat): Option<Layers> {
    if tensors == [] then Some(map[])
    else match Extract(tensors[..|tensors| - 1], experts)
      case None => None
      case Some(layers) => AddTensor(layers, tensors[|tensors| - 1], experts)
  }

  method ExtractExpertOffsets(tensors: seq<Reported>, experts: nat) returns (layers: Option<Layers>)
    ensures layers == Extract(tensors, experts)
  {
    hide MatchName, Store, Ranges;
    var found: Layers := map[];
    for i := 0 to |tensors|
      invariant Extract(tensors[..i], experts) == Some(found)
    {
      assert tensors[..i + 1][..i] == tensors[..i];
      var t := tensors[i];
      var m := MatchName(t.name);
      if m.Some? {
        if experts == 0 || t.bytes % experts != 0 {
          Stuck(tensors, i + 1, experts);
          return None;
        }
        var each := Share(t.bytes, experts);
        found := Store(found, m.value.0, m.value.1, Entry(t, Ranges(t.dataOffset, each, experts)));
      }
    }
    assert tensors[..|tensors|] == tensors;
    return Some(found);
  }

  lemma {:induction false} Stuck(tensors: seq<Reported>, i: nat, experts: nat)
    requires i <= |tensors| && Extract(tensors[..i], experts).None?
    ensures Extract(tensors, experts).None?
    decreases |tensors| - i
  {
    hide AddTensor;
    if i == |tensors| {
      assert tensors[..i] == tensors;
    } else {
      assert tensors[..i + 1][..i] == tensors[..i];
      Stuck(tensors, i + 1, experts);
    }
  }

  /** A tensor the tool would stumble over. */
  ghost predicate Indivisible(t: Reported, experts: nat) {
    MatchName(t.name).Some? && (experts == 0 || t.bytes % experts != 0)
  }

  /** The tool raises if and only if some matching tensor is not divisible by the expert count. */
  lemma {:induction false} ExtractSucceedsExactly(tensors: seq<Reported>, experts: nat)
    ensures Extract(tensors, experts).Some? <==>
              forall i :: 0 <= i < |tensors| ==> !Indivisible(tensors[i], experts)
  {
    hide MatchName, EntryOf, Store;
    if tensors != [] {
      var u := tensors[..|tensors| - 1];
      ExtractSucceedsExactly(u, experts);
      assert forall i :: 0 <= i < |u| ==> u[i] == tensors[i];
    }
  }

  ghost predicate Lists(layers: Layers, layer: nat, projection: Projection, entry: Entry) {
    layer in layers && projection in layers[layer] && layers[layer][projection] == entry
  }

  lemma AddStores(layers: Layers, t: Reported, experts: nat)
    requires MatchName(t.name).Some? && AddTensor(layers, t, experts).Some?
    ensures Lists(AddTensor(layers, t, experts).value, MatchName(t.name).value.0, MatchName(t.name).value.1,
                  EntryOf(t, experts))
  {
    hide MatchName, EntryOf;
  }

  lemma AddKeeps(layers: Layers, t: Reported, experts: nat, layer: nat, projection: Projection, entry: Entry)
    requires Lists(layers, layer, projection, entry) && AddTensor(layers, t, experts).Some?
    requires MatchName(t.name) != Some((layer, projection))
    ensures Lists(AddTensor(layers, t, experts).value, layer, projection, entry)
  {
    hide MatchName, EntryOf;
  }

  /** What the tool stores for a layer and projection: the last tensor of that name. */
  lemma {:induction false} ExtractKeepsLast(tensors: seq<Reported>, experts: nat, i: nat)
    requires Extract(tensors, experts).Some? && i < |tensors| && MatchName(tensors[i].name).Some?
    requires forall j :: i < j < |tensors| ==> MatchName(tensors[j].name) != MatchName(tensors[i].name)
    ensures var (layer, projection) := MatchName(tensors[i].name).value;
            Lists(Extract(tensors, experts).value, layer, projection, EntryOf(tensors[i], experts))
  {
    hide MatchName, EntryOf, AddTensor, Lists;
    var u, last := tensors[..|tensors| - 1], tensors[|tensors| - 1];
    var layers := Extract(u, experts).value;
    if i < |tensors| - 1 {
      assert forall j :: 0 <= j < |u| ==> u[j] == tensors[j];
      ExtractKeepsLast(u, experts, i);
      var m := MatchName(tensors[i].name).value;
      AddKeeps(layers, last, experts, m.0, m.1, EntryOf(tensors[i], experts));
    } else {
      AddStores(layers, last, experts);
    }
  }

  // ---------- Both tools on one header ----------

  function BytesOf(t: TensorInfo, ggml: Ggml): nat {
    Product(t.shape[1..]) * ggml.rowSize(t.ggmlType, t.shape[0])
  }

  /** What the library reports of a header's tensors when the data starts at `base`. */
  function Report(t: TensorInfo, base: nat, ggml: Ggml): Reported {
    Reported(t.name, t.ggmlType, t.shape, BytesOf(t, ggml), base + t.offset)
  }

  function Reports(tensors: seq<TensorInfo>, base: nat, ggml: Ggml): (r: seq<Reported>)
    ensures |r| == |tensors| && forall i :: 0 <= i < |r| ==> r[i] == Report(tensors[i], base, ggml)
  {
    seq(|tensors|, i requires 0 <= i < |tensors| => Report(tensors[i], base, ggml))
  }

  function DataStart(h: Header): nat {
    AlignUp(|EncodeHeader(h)|, MetaOf(h.kvs).alignment)
  }

  /** A name that the tool matches, without a final newline and with a layer of 32 bits. */
  predicate CanonicalExpert(name: seq<byte>) {
    MatchName(name).Some? && MatchName(name).value.0 <= MAX_U32 && name[|name| - 1] != NEWLINE
  }

  /** A name that the native parser takes for an expert's only if it is a canonical one. */
  predicate Canonical(name: seq<byte>) {
    ParseExpertName(name).Some? ==> CanonicalExpert(name)
  }

  lemma CanonicalNamesAgree(name: seq<byte>)
    requires CanonicalExpert(name)
    ensures ParseExpertName(name) == MatchName(name)
  {
    hide MatchName, ParseExpertName;
    NamesAgree(name);
  }

  /** The tensor's type is known and its rows are not empty. */
  predicate Sized(t: TensorInfo, ggml: Ggml) {
    t.ggmlType < ggml.typeCount && ggml.rowSize(t.ggmlType, t.shape[0]) > 0
  }

  /** What the native reader keeps of a tensor is what the library reports of it. */
  lemma KeptIsReported(t: TensorInfo, experts: nat, ggml: Ggml, s: Slab)
    ensures Judge(t, experts, ggml) == Keep(s) ==>
              && experts > 0 && Sized(t, ggml) && ParseExpertName(t.name) == Some((s.layer, s.projection))
              && s.offset == t.offset && s.bytes == BytesOf(t, ggml)
    ensures Sized(t, ggml) && experts > 0 && ParseExpertName(t.name) == Some((s.layer, s.projection)) ==>
              if BytesOf(t, ggml) > MAX_U64 then Judge(t, experts, ggml) == Reject
              else Judge(t, experts, ggml) == Keep(s.(offset := t.offset, bytes := BytesOf(t, ggml)))
  {
    hide ParseExpertName, TensorBytes, Product;
    if ggml.rowSize(t.ggmlType, t.shape[0]) > 0 {
      TensorBytesExact(t.shape[1..], ggml.rowSize(t.ggmlType, t.shape[0]));
    }
  }

  /** The slabs of a header are those of its kept tensors, and there are any only if none is rejected. */
  lemma {:induction false} SlabsExactly(tensors: seq<TensorInfo>, experts: nat, ggml: Ggml, s: Slab)
    requires SlabsOf(tensors, experts, ggml).Some?
    ensures s in SlabsOf(tensors, experts, ggml).value <==>
              exists i :: 0 <= i < |tensors| && Judge(tensors[i], experts, ggml) == Keep(s)
    ensures forall i :: 0 <= i < |tensors| ==> !Judge(tensors[i], experts, ggml).Reject?
  {
    hide Judge;
    if tensors != [] {
      var u := tensors[..|tensors| - 1];
      SlabsExactly(u, experts, ggml, s);
      assert forall i :: 0 <= i < |u| ==> u[i] == tensors[i];
      if i :| 0 <= i < |tensors| && Judge(tensors[i], experts, ggml) == Keep(s) {
        if i < |u| {
          assert Judge(u[i], experts, ggml) == Keep(s);
        }
      }
      if s in SlabsOf(u, experts, ggml).value {
        var i :| 0 <= i < |u| && Judge(u[i], experts, ggml) == Keep(s);
        assert Judge(tensors[i], experts, ggml) == Keep(s);
      }
    }
  }

  /** The tensors of an opened index, in terms of the header it was read from. */
  lemma IndexedExactly(file: seq<byte>, h: Header, depth: int, ggml: Ggml, t: Tensor)
    requires WellFormedHeader(h, NATIVE.maxArray, depth) && depth >= 0 && At(file, 0, EncodeHeader(h))
    requires OpenIndex(file, ggml).Some?
    ensures var index := OpenIndex(file, ggml).value;
            && index.experts > 0
            && (t in index.tensors <==>
                  exists i, s :: 0 <= i < |h.tensors| && Judge(h.tensors[i], index.experts, ggml) == Keep(s) &&
                                 Placed(t, s, DataStart(h), |file|, index.experts))
            && forall i :: 0 <= i < |h.tensors| ==> !Judge(h.tensors[i], index.experts, ggml).Reject?
  {
    hide OpenIndex, SlabsOf, Place, Placed, Judge, At, EncodeHeader, MetaOf, AlignUp, WellFormedHeader;
    HeaderRoundTrip(file, h, depth, ggml);
    var experts := MetaOf(h.kvs).experts;
    var slabs := SlabsOf(h.tensors, experts, ggml).value;
    PlacedExactly(slabs, DataStart(h), |file|, experts, t);
    forall s ensures s in slabs <==>
                     exists i :: 0 <= i < |h.tensors| && Judge(h.tensors[i], experts, ggml) == Keep(s)
    {
      SlabsExactly(h.tensors, experts, ggml, s);
    }
    SlabsExactly(h.tensors, experts, ggml, Slab(0, Gate, 0, 0));
    if k :| 0 <= k < |slabs| && Placed(t, slabs[k], DataStart(h), |file|, experts) {
      assert slabs[k] in slabs;
    }
    if i, s :| 0 <= i < |h.tensors| && Judge(h.tensors[i], experts, ggml) == Keep(s) &&
               Placed(t, s, DataStart(h), |file|, experts) {
      assert s in slabs;
    }
  }

  /** The names that the model format gives to tensors: whatever the native parser takes for an expert's is a
      canonical name, and no two of these are the same. */
  ghost predicate CanonicalNames(tensors: seq<TensorInfo>) {
    && (forall i :: 0 <= i < |tensors| ==> Canonical(tensors[i].name))
    && forall i, j :: 0 <= i < j < |tensors| && MatchName(tensors[i].name).Some? ==>
         MatchName(tensors[i].name) != MatchName(tensors[j].name)
  }

  /** A kept tensor too large for 64 bits makes the native reader give up. */
  predicate TooLarge(t: TensorInfo, ggml: Ggml) {
    ParseExpertName(t.name).Some? && Sized(t, ggml) && BytesOf(t, ggml) > MAX_U64
  }

  lemma RejectedExactly(t: TensorInfo, experts: nat, ggml: Ggml)
    ensures Judge(t, experts, ggml).Reject? <==> experts > 0 && TooLarge(t, ggml)
  {
    hide ParseExpertName, TensorBytes, Product;
    if ggml.rowSize(t.ggmlType, t.shape[0]) > 0 {
      TensorBytesExact(t.shape[1..], ggml.rowSize(t.ggmlType, t.shape[0]));
    }
  }

  lemma {:induction false} SlabsUnlessTooLarge(tensors: seq<TensorInfo>, experts: nat, ggml: Ggml)
    ensures SlabsOf(tensors, experts, ggml).Some? <==>
              experts == 0 || forall i :: 0 <= i < |tensors| ==> !TooLarge(tensors[i], ggml)
  {
    hide Judge, TooLarge;
    if tensors != [] {
      var u := tensors[..|tensors| - 1];
      SlabsUnlessTooLarge(u, experts, ggml);
      RejectedExactly(tensors[|tensors| - 1], experts, ggml);
      assert forall i :: 0 <= i < |u| ==> u[i] == tensors[i];
    }
  }

  /** A well-formed header opens if and only if its last string architecture is not empty, its last expert count is
      not zero, no expert tensor is too large, and the data starts inside the file; the index then holds those. */
  lemma OpensExactly(file: seq<byte>, h: Header, depth: int, ggml: Ggml)
    requires WellFormedHeader(h, NATIVE.maxArray, depth) && depth >= 0 && At(file, 0, EncodeHeader(h))
    ensures var a, e := Last(h.kvs, NamesArchitecture), Last(h.kvs, CountsExperts);
            && (OpenIndex(file, ggml).Some? <==>
                  && a.Some? && TextOf(a.value) != []
                  && e.Some? && WordOf(e.value) > 0
                  && (forall i :: 0 <= i < |h.tensors| ==> !TooLarge(h.tensors[i], ggml))
                  && 0 < DataStart(h) <= |file|)
            && (OpenIndex(file, ggml).Some? ==>
                  && OpenIndex(file, ggml).value.architecture == TextOf(a.value)
                  && OpenIndex(file, ggml).value.experts == WordOf(e.value))
  {
    hide OpenIndex, SlabsOf, Place, At, EncodeHeader, Last, AlignUp, WellFormedHeader, TooLarge, NamesArchitecture,
      CountsExperts, SetsAlignment;
    HeaderRoundTrip(file, h, depth, ggml);
    SlabsUnlessTooLarge(h.tensors, MetaOf(h.kvs).experts, ggml);
  }

  /** The data starts at the least multiple of the header's alignment, or of 32 without one, after the header; an
      alignment of zero leaves it nowhere. */
  lemma DataStartExactly(h: Header, depth: int)
    requires WellFormedHeader(h, NATIVE.maxArray, depth) && |EncodeHeader(h)| <= 0x7FFF_FFFF_FFFF_FFFF
    ensures var last := Last(h.kvs, SetsAlignment);
            var alignment := if last.Some? then WordOf(last.value) else 32;
            if alignment == 0 then DataStart(h) == 0
            else LeastMultiple(DataStart(h), |EncodeHeader(h)|, alignment)
  {
    hide EncodeHeader, AlignUp, NamesArchitecture, CountsExperts, LeastMultiple, Ascii;
    HeaderNotEmpty(h);
    var last := Last(h.kvs, SetsAlignment);
    assert last.Some? ==> WellFormed(last.value.value, NATIVE.maxArray, depth);
    AlignUpNeverRefuses(|EncodeHeader(h)|, MetaOf(h.kvs).alignment);
  }

  lemma HeaderNotEmpty(h: Header)
    ensures |EncodeHeader(h)| >= 24
  {
    hide EncodeKeyValues, EncodeTensors;
    PreludeSize(h);
  }

  /** Both computations of the offsets agree on every header with canonical names, whatever other tensors it
      has: for every tensor of the native index the tool lists, under its layer and projection, exactly the
      ranges base + e * expert_bytes that the index implies. */
  lemma OffsetsAgree(file: seq<byte>, h: Header, depth: int, ggml: Ggml, t: Tensor)
    requires WellFormedHeader(h, NATIVE.maxArray, depth) && depth >= 0 && At(file, 0, EncodeHeader(h))
    requires CanonicalNames(h.tensors)
    requires OpenIndex(file, ggml).Some? && t in OpenIndex(file, ggml).value.tensors
    ensures var experts := OpenIndex(file, ggml).value.experts;
            var extracted := Extract(Reports(h.tensors, DataStart(h), ggml), experts);
            extracted.Some? ==>
              exists tensor :: Lists(extracted.value, t.layer, t.projection,
                                     Entry(tensor, Ranges(t.offset, t.expertBytes, experts)))
  {
    hide OpenIndex, Extract, Lists, Judge, At, EncodeHeader, WellFormedHeader, DataStart, MatchName, ParseExpertName,
      BytesOf, Ranges;
    IndexedExactly(file, h, depth, ggml, t);
    var experts, base := OpenIndex(file, ggml).value.experts, DataStart(h);
    var reports := Reports(h.tensors, base, ggml);
    var i, s :| 0 <= i < |h.tensors| && Judge(h.tensors[i], experts, ggml) == Keep(s) &&
                Placed(t, s, base, |file|, experts);
    KeptIsReported(h.tensors[i], experts, ggml, s);
    assert Canonical(h.tensors[i].name);
    CanonicalNamesAgree(h.tensors[i].name);
    if Extract(reports, experts).Some? {
      ExtractKeepsLast(reports, experts, i);
      assert EntryOf(reports[i], experts) == Entry(reports[i], Ranges(t.offset, t.expertBytes, experts));
    }
  }

  /** The tensor as the index would list it. */
  function Indexed(h: Header, i: nat, experts: nat, ggml: Ggml): Tensor
    requires i < |h.tensors| && MatchName(h.tensors[i].name).Some?
  {
    var info, m := h.tensors[i], MatchName(h.tensors[i].name).value;
    Tensor(m.0, m.1, DataStart(h) + info.offset, BytesOf(info, ggml), Share(BytesOf(info, ggml), experts))
  }

  /** Conversely, a canonical expert tensor that the tool lists is in the native index if and only if its type is
      known, its rows are not empty, and its first expert lies inside the file. */
  lemma ListedIsIndexedExactly(file: seq<byte>, h: Header, depth: int, ggml: Ggml, i: nat)
    requires WellFormedHeader(h, NATIVE.maxArray, depth) && depth >= 0 && At(file, 0, EncodeHeader(h))
    requires CanonicalNames(h.tensors) && i < |h.tensors| && CanonicalExpert(h.tensors[i].name)
    requires OpenIndex(file, ggml).Some?
    requires Extract(Reports(h.tensors, DataStart(h), ggml), OpenIndex(file, ggml).value.experts).Some?
    ensures var index := OpenIndex(file, ggml).value;
            var t := Indexed(h, i, index.experts, ggml);
            t in index.tensors <==> Sized(h.tensors[i], ggml) && t.offset + t.expertBytes <= |file|
  {
    hide OpenIndex, Extract, Judge, At, EncodeHeader, WellFormedHeader, DataStart, MatchName, ParseExpertName, BytesOf,
      Sized;
    var info, index, base := h.tensors[i], OpenIndex(file, ggml).value, DataStart(h);
    var t := Indexed(h, i, index.experts, ggml);
    var s := Slab(t.layer, t.projection, info.offset, BytesOf(info, ggml));
    IndexedExactly(file, h, depth, ggml, t);
    CanonicalNamesAgree(info.name);
    KeptIsReported(info, index.experts, ggml, s);
    ExtractSucceedsExactly(Reports(h.tensors, base, ggml), index.experts);
    assert !Indivisible(Reports(h.tensors, base, ggml)[i], index.experts);
    assert !Judge(info, index.experts, ggml).Reject?;
    if t in index.tensors {
      var j, r :| 0 <= j < |h.tensors| && Judge(h.tensors[j], index.experts, ggml) == Keep(r) &&
                  Placed(t, r, base, |file|, index.experts);
      KeptIsReported(h.tensors[j], index.experts, ggml, r);
      assert Canonical(h.tensors[j].name);
      CanonicalNamesAgree(h.tensors[j].name);
      assert j == i;
    }
  }

  // ---------- The expert count ----------

  predicate IsUnsigned(v: Value) {
    v.U8? || v.U16? || v.U32? || v.U64?
  }

  /** The tool's count: the number under `<architecture>.expert_count`. */
  function ToolExperts(kvs: seq<KeyValue>): Option<nat> {
    var a := Last(kvs, NamesArchitecture);
    if a.None? then None
    else
      var key := TextOf(a.value) + EXPERT_COUNT_SUFFIX;
      var c := Last(kvs, (kv: KeyValue) => kv.key == key && IsUnsigned(kv.value));
      if c.Some? && IsUnsigned(c.value.value) then Some(c.value.value.bits) else None
  }

  lemma OnlyCandidate(kvs: seq<KeyValue>, i: nat, p: KeyValue -> bool)
    requires i < |kvs| && p(kvs[i]) && forall j :: 0 <= j < |kvs| && j != i ==> !p(kvs[j])
    ensures Last(kvs, p) == Some(kvs[i])
  {
  }

  /** Both counts agree on every header with one architecture and one expert count, a 32-bit word under the
      architecture's key. */
  lemma ExpertCountsAgree(kvs: seq<KeyValue>, a: nat, i: nat)
    requires a < |kvs| && NamesArchitecture(kvs[a])
    requires forall j :: 0 <= j < |kvs| && j != a ==> kvs[j].key != ARCHITECTURE_KEY
    requires i < |kvs| && CountsExperts(kvs[i]) && kvs[i].key == TextOf(kvs[a]) + EXPERT_COUNT_SUFFIX
    requires forall j :: 0 <= j < |kvs| && j != i ==> !IsExpertCountKey(kvs[j].key)
    ensures ToolExperts(kvs) == Some(MetaOf(kvs).experts)
  {
    hide Ascii, IsExpertCountKey, Last;
    var key := kvs[i].key;
    OnlyCandidate(kvs, a, NamesArchitecture);
    assert forall j :: 0 <= j < |kvs| && j != i ==> kvs[j].key != key;
    OnlyCandidate(kvs, i, (kv: KeyValue) => kv.key == key && IsUnsigned(kv.value));
    OnlyCandidate(kvs, i, CountsExperts);
  }
}
