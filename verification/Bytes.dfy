/**
 Bytes, the little-endian integers made of them, pieces of files, and a little arithmetic on words.
 */
module Bytes {
  type byte = b: int | 0 <= b < 256

  const MAX_U32 := 0xFFFF_FFFF
  const MAX_U64 := 0xFFFF_FFFF_FFFF_FFFF

  function Pow256(width: nat): nat {
    if width == 0 then 1 else 256 * Pow256(width - 1)
  }

  function ToLE(n: nat, width: nat): (s: seq<byte>)
    ensures |s| == width
  {
    if width == 0 then [] else [n % 256] + ToLE(n / 256, width - 1)
  }

  function FromLE(s: seq<byte>): nat {
    if s == [] then 0 else s[0] + 256 * FromLE(s[1..])
  }

  lemma {:induction false} FromToLE(n: nat, width: nat)
    requires n < Pow256(width)
    ensures FromLE(ToLE(n, width)) == n
  {
    if width > 0 {
      FromToLE(n / 256, width - 1);
      assert ToLE(n, width)[1..] == ToLE(n / 256, width - 1);
    }
  }

  lemma {:induction false} FromLEBound(s: seq<byte>)
    ensures FromLE(s) < Pow256(|s|)
  {
    if s != [] {
      FromLEBound(s[1..]);
    }
  }

  lemma Widths()
    ensures Pow256(4) == MAX_U32 + 1 && Pow256(8) == MAX_U64 + 1
  {
    assert Pow256(1) == 256 && Pow256(2) == 65536 && Pow256(3) == 16777216;
    assert Pow256(5) == 256 * Pow256(4) && Pow256(6) == 65536 * Pow256(4) && Pow256(7) == 16777216 * Pow256(4);
  }

  /** The file holds `s` at position `p`. */
  ghost predicate At(file: seq<byte>, p: nat, s: seq<byte>) {
    p + |s| <= |file| && file[p..p + |s|] == s
  }

  lemma AtSplit(file: seq<byte>, p: nat, a: seq<byte>, b: seq<byte>)
    requires At(file, p, a + b)
    ensures At(file, p, a) && At(file, p + |a|, b)
  {
    assert file[p..p + |a|] == (a + b)[..|a|];
    assert file[p + |a|..p + |a| + |b|] == (a + b)[|a|..];
  }

  // ---------- Products ----------

  lemma Scale(a: nat, b: nat, d: nat)
    requires a <= b
    ensures a * d <= b * d
  {
  }

  lemma MultipleOf(q: nat, a: nat)
    requires a > 0
    ensures (q * a) % a == 0
  {
    var p, m := (q * a) / a, (q * a) % a;
    assert q * a == p * a + m;
    if p < q {
      assert (p + 1) * a == p * a + a;
      Scale(p + 1, q, a);
    } else {
      Scale(q, p, a);
    }
  }
}
