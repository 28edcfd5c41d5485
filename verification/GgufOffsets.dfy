/**
 The arithmetic on 64-bit words behind the expert offsets: guarded products, alignment, and the tiling of a
 merged tensor by its experts.
 */
module GgufOffsets {
  import opened Bytes
  import opened GgufFormat
  import opened Options

  // ---------- Products ----------

  /** The loop over the outer dimensions, with the guard that precedes every multiplication. */
  function Rows(dims: seq<nat>, rows: nat): Option<nat>
    requires Positive(dims)
  {
    if dims == [] then Some(rows)
    else if rows > MAX_U64 / dims[0] then None
    else Rows(dims[1..], rows * dims[0])
  }

  function Product(dims: seq<nat>): nat {
    if dims == [] then 1 else dims[0] * Product(dims[1..])
  }

  /** `x > m / d` is overflow of `x * d`, exactly. */
  lemma GuardIsExact(x: nat, d: nat, m: nat)
    requires d > 0
    ensures x > m / d <==> x * d > m
  {
    var q, r := m / d, m % d;
    assert m == q * d + r;
    if x > q {
      Scale(q + 1, x, d);
    } else {
      Scale(x, q, d);
    }
  }

  lemma {:induction false} ProductPositive(dims: seq<nat>)
    requires Positive(dims)
    ensures Product(dims) >= 1
  {
    if dims != [] {
      ProductPositive(dims[1..]);
      Scale(1, Product(dims[1..]), dims[0]);
    }
  }

  /** The guarded loop yields the true product, and rejects if and only if that product needs more than 64 bits. */
  lemma {:induction false} RowsExact(dims: seq<nat>, rows: nat)
    requires Positive(dims)
    requires 1 <= rows <= MAX_U64
    ensures Rows(dims, rows) == if rows * Product(dims) <= MAX_U64 then Some(rows * Product(dims)) else None
  {
    if dims != [] {
      var d, rest := dims[0], Product(dims[1..]);
      GuardIsExact(rows, d, MAX_U64);
      Associate(rows, d, rest);
      ProductPositive(dims[1..]);
      if rows * d <= MAX_U64 {
        Scale(1, d, rows);
        RowsExact(dims[1..], rows * d);
      } else {
        Scale(1, rest, rows * d);
      }
    }
  }

  /** Rows times the bytes of a row, guarded the same way. */
  function TensorBytes(dims: seq<nat>, rowBytes: nat): Option<nat>
    requires Positive(dims) && rowBytes > 0
  {
    match Rows(dims, 1)
    case None => None
    case Some(rows) => if rows > MAX_U64 / rowBytes then None else Some(rows * rowBytes)
  }

  /** The whole size computation is exact: the true product, or a rejection when that needs more than 64 bits. */
  lemma TensorBytesExact(dims: seq<nat>, rowBytes: nat)
    requires Positive(dims) && rowBytes > 0
    ensures TensorBytes(dims, rowBytes) ==
              if Product(dims) * rowBytes <= MAX_U64 then Some(Product(dims) * rowBytes) else None
  {
    RowsExact(dims, 1);
    GuardIsExact(Product(dims), rowBytes, MAX_U64);
    ProductPositive(dims);
    Scale(1, rowBytes, Product(dims));
  }

  lemma Associate(a: nat, b: nat, c: nat)
    ensures a * (b * c) == (a * b) * c
  {
  }

  // ---------- Alignment ----------

  /** Zero means that the arithmetic was refused. */
  function AlignUp(value: nat, alignment: nat): nat {
    if alignment == 0 || value > MAX_U64 - alignment + 1 then 0
    else (value + alignment - 1) / alignment * alignment
  }

  predicate LeastMultiple(r: nat, value: nat, alignment: nat)
    requires alignment > 0
  {
    r % alignment == 0 && value <= r < value + alignment
  }

  /** Every intermediate value stays within 64 bits, and the result is the least multiple of the alignment that
      is not below the value, exactly when rounding up does not leave the 64-bit range before the division. */
  lemma AlignUpExact(value: nat, alignment: nat)
    requires 1 <= value <= MAX_U64 && 1 <= alignment <= MAX_U64
    ensures AlignUp(value, alignment) != 0 <==> value + alignment - 1 <= MAX_U64
    ensures AlignUp(value, alignment) != 0 ==>
              LeastMultiple(AlignUp(value, alignment), value, alignment) && AlignUp(value, alignment) <= MAX_U64
  {
    if value + alignment - 1 <= MAX_U64 {
      var top := value + alignment - 1;
      var q, r := top / alignment, top % alignment;
      assert top == q * alignment + r;
      MultipleOf(q, alignment);
    }
  }

  /** At every position that a file offset can take, with every alignment that a header can hold, alignment is
      never refused unless the alignment is zero. */
  lemma AlignUpNeverRefuses(position: nat, alignment: nat)
    requires 1 <= position <= 0x7FFF_FFFF_FFFF_FFFF && alignment <= MAX_U32
    ensures AlignUp(position, alignment) == 0 <==> alignment == 0
    ensures alignment > 0 ==> LeastMultiple(AlignUp(position, alignment), position, alignment)
  {
    if alignment > 0 {
      AlignUpExact(position, alignment);
    }
  }

  /** On the whole 64-bit range a refusal is a false alarm, the least multiple fitting all the same, if and only
      if the value is no larger than the largest multiple that fits. */
  lemma FalseAlarmExactly(value: nat, alignment: nat, r: nat)
    requires 1 <= value <= MAX_U64 && 1 <= alignment <= MAX_U64 && LeastMultiple(r, value, alignment)
    ensures AlignUp(value, alignment) == 0 && r <= MAX_U64 <==>
              MAX_U64 - alignment + 1 < value <= MAX_U64 / alignment * alignment
  {
    AlignUpExact(value, alignment);
    LargestMultiple(r, MAX_U64, alignment);
    var top := MAX_U64 / alignment * alignment;
    MultipleOf(MAX_U64 / alignment, alignment);
    if value <= top {
      LeastIsLeast(r, top, value, alignment);
    }
  }

  /** A multiple is within a bound exactly when it is within the largest multiple within that bound. */
  lemma LargestMultiple(r: nat, bound: nat, a: nat)
    requires a > 0 && r % a == 0
    ensures bound / a * a <= bound
    ensures r <= bound <==> r <= bound / a * a
  {
    var q, k := r / a, bound / a;
    assert r == q * a;
    assert bound == k * a + bound % a;
    if q > k {
      Scale(k + 1, q, a);
      assert (k + 1) * a == k * a + a;
    } else {
      Scale(q, k, a);
    }
  }

  lemma LeastIsLeast(r: nat, other: nat, value: nat, a: nat)
    requires a > 0 && LeastMultiple(r, value, a) && other % a == 0 && value <= other
    ensures r <= other
  {
    var q, k := r / a, other / a;
    assert r == q * a && other == k * a;
    assert (k + 1) * a == k * a + a;
    if q > k {
      Scale(k + 1, q, a);
    } else {
      Scale(q, k, a);
    }
  }

  /** Hence no false alarms for alignments that divide 2^64, all powers of two among them. */
  lemma AlignUpDividing(value: nat, alignment: nat, r: nat)
    requires 1 <= value <= MAX_U64 && 1 <= alignment <= MAX_U64 && (MAX_U64 + 1) % alignment == 0
    requires LeastMultiple(r, value, alignment) && AlignUp(value, alignment) == 0
    ensures r > MAX_U64
  {
    var k, q := (MAX_U64 + 1) / alignment, r / alignment;
    assert MAX_U64 + 1 == k * alignment;
    assert r == q * alignment;
    if q < k {
      assert (q + 1) * alignment == q * alignment + alignment;
      Scale(q + 1, k, alignment);
    } else {
      Scale(k, q, alignment);
    }
  }

  // ---------- Expert ranges ----------

  datatype Range = Range(offset: nat, length: nat)

  function Ranges(base: nat, length: nat, count: nat): (ranges: seq<Range>)
    ensures |ranges| == count
    ensures forall e :: 0 <= e < count ==> ranges[e] == Range(base + e * length, length)
  {
    seq(count, e requires 0 <= e < count => Range(base + e * length, length))
  }

  predicate Covers(r: Range, position: nat) {
    r.offset <= position < r.offset + r.length
  }

  /** The experts of a tensor whose size they divide tile it: every byte of the tensor belongs to exactly one
      expert, and no expert reaches outside. */
  lemma ExpertsTileTensor(base: nat, bytes: nat, count: nat, position: nat)
    requires count > 0 && bytes % count == 0
    ensures var ranges := Ranges(base, bytes / count, count);
            && (base <= position < base + bytes <==> exists e :: 0 <= e < count && Covers(ranges[e], position))
            && (forall e, f :: 0 <= e < f < count ==> !(Covers(ranges[e], position) && Covers(ranges[f], position)))
  {
    var length := bytes / count;
    var ranges := Ranges(base, length, count);
    assert bytes == length * count;
    forall e | 0 <= e < count && Covers(ranges[e], position) ensures base <= position < base + bytes {
      Scale(e + 1, count, length);
      assert (e + 1) * length == e * length + length;
      assert count * length == bytes;
    }
    if base <= position < base + bytes {
      OwnerExists(base, length, count, position);
    }
    forall e, f | 0 <= e < f < count ensures !(Covers(ranges[e], position) && Covers(ranges[f], position)) {
      Scale(e + 1, f, length);
      assert (e + 1) * length == e * length + length;
    }
  }

  lemma {:induction false} OwnerExists(base: nat, length: nat, count: nat, position: nat)
    requires base <= position < base + count * length
    ensures exists e :: 0 <= e < count && Covers(Ranges(base, length, count)[e], position)
  {
    var last := count - 1;
    assert count * length == last * length + length;
    if position >= base + last * length {
      assert Covers(Ranges(base, length, count)[last], position);
    } else {
      OwnerExists(base, length, last, position);
      var e :| 0 <= e < last && Covers(Ranges(base, length, last)[e], position);
      assert Ranges(base, length, count)[e] == Ranges(base, length, last)[e];
    }
  }
}
