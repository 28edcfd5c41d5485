/**
 The theory of recency lists shared by the byte-budgeted native cache and the entry-counted simulator.
 A recency list holds each key once, newest first; a cache is a part of it that fits a budget.
 */
module Recency {

  predicate Distinct<K(==)>(s: seq<K>) {
    forall i, j :: 0 <= i < j < |s| ==> s[i] != s[j]
  }

  /** `s` without any occurrence of `k`, order kept. */
  function Without<K(==)>(s: seq<K>, k: K): seq<K> {
    if s == [] then [] else if s[0] == k then Without(s[1..], k) else [s[0]] + Without(s[1..], k)
  }

  /** `k` becomes the newest key. */
  function Touch<K(==)>(s: seq<K>, k: K): seq<K> {
    [k] + Without(s, k)
  }

  function Sum<K>(s: seq<K>, size: K -> nat): nat {
    if s == [] then 0 else size(s[0]) + Sum(s[1..], size)
  }

  /** Greedy prefix from the newest end; FitIsLongest says what it means. */
  function Fit<K>(s: seq<K>, size: K -> nat, budget: int): seq<K> {
    if s == [] || size(s[0]) > budget then [] else [s[0]] + Fit(s[1..], size, budget - size(s[0]))
  }

  /** The contents of a cache after a request for `k`: a hit moves `k` to the front, an oversize
      request changes nothing, and a miss evicts from the old end until `k` fits. */
  function Admit<K(==)>(entries: seq<K>, k: K, size: K -> nat, budget: int): seq<K> {
    if k in entries then Touch(entries, k)
    else if size(k) > budget then entries
    else [k] + Fit(entries, size, budget - size(k))
  }

  // ---------- Without and Touch ----------

  lemma {:induction false} WithoutMembers<K>(s: seq<K>, k: K)
    ensures forall x :: x in Without(s, k) <==> x in s && x != k
    ensures |Without(s, k)| <= |s|
  {
    if s != [] {
      WithoutMembers(s[1..], k);
    }
  }

  lemma {:induction false} WithoutAbsent<K>(s: seq<K>, k: K)
    requires k !in s
    ensures Without(s, k) == s
  {
    if s != [] {
      WithoutAbsent(s[1..], k);
    }
  }

  lemma {:induction false} WithoutAppend<K>(s: seq<K>, t: seq<K>, k: K)
    ensures Without(s + t, k) == Without(s, k) + Without(t, k)
  {
    if s == [] {
      assert s + t == t;
    } else {
      assert (s + t)[1..] == s[1..] + t;
      WithoutAppend(s[1..], t, k);
    }
  }

  lemma DistinctCons<K>(k: K, s: seq<K>)
    requires Distinct(s) && k !in s
    ensures Distinct([k] + s)
  {
    var t := [k] + s;
    forall i, j | 0 <= i < j < |t| ensures t[i] != t[j] {
      assert t[j] == s[j - 1];
      if i > 0 {
        assert t[i] == s[i - 1];
      }
    }
  }

  lemma DistinctTail<K>(s: seq<K>)
    requires Distinct(s) && s != []
    ensures s[0] !in s[1..] && Distinct(s[1..])
  {
  }

  lemma {:induction false} WithoutDistinct<K>(s: seq<K>, k: K)
    requires Distinct(s)
    ensures Distinct(Without(s, k))
  {
    if s != [] {
      WithoutDistinct(s[1..], k);
      WithoutMembers(s[1..], k);
      if s[0] != k {
        DistinctCons(s[0], Without(s[1..], k));
      }
    }
  }

  lemma TouchDistinct<K>(s: seq<K>, k: K)
    requires Distinct(s)
    ensures Distinct(Touch(s, k))
  {
    WithoutDistinct(s, k);
    WithoutMembers(s, k);
    DistinctCons(k, Without(s, k));
  }

  lemma SplitAt<K>(s: seq<K>, i: nat)
    requires Distinct(s) && i < |s|
    ensures s == s[..i] + ([s[i]] + s[i + 1..])
    ensures s[i] !in s[..i] && s[i] !in s[i + 1..]
  {
  }

  /** Deleting the element at position `i` of a distinct list. */
  lemma WithoutAt<K>(s: seq<K>, i: nat)
    requires Distinct(s) && i < |s|
    ensures Without(s, s[i]) == s[..i] + s[i + 1..]
  {
    hide Distinct, Without;
    SplitAt(s, i);
    WithoutMiddle(s[..i], s[i], s[i + 1..]);
  }

  lemma WithoutMiddle<K>(before: seq<K>, k: K, after: seq<K>)
    requires k !in before && k !in after
    ensures Without(before + ([k] + after), k) == before + after
  {
    WithoutAppend(before, [k] + after, k);
    WithoutAbsent(before, k);
    WithoutAbsent(after, k);
    assert ([k] + after)[1..] == after;
  }

  lemma {:induction false} SumAppend<K>(s: seq<K>, t: seq<K>, size: K -> nat)
    ensures Sum(s + t, size) == Sum(s, size) + Sum(t, size)
  {
    if s == [] {
      assert s + t == t;
    } else {
      assert (s + t)[1..] == s[1..] + t;
      SumAppend(s[1..], t, size);
    }
  }

  lemma SumWithout<K>(s: seq<K>, k: K, size: K -> nat)
    requires Distinct(s) && k in s
    ensures Sum(s, size) == size(k) + Sum(Without(s, k), size)
  {
    var i :| 0 <= i < |s| && s[i] == k;
    WithoutAt(s, i);
    assert s == s[..i] + ([k] + s[i + 1..]);
    SumAppend(s[..i], [k] + s[i + 1..], size);
    SumAppend(s[..i], s[i + 1..], size);
  }

  // ---------- Fit ----------

  /** Fit is the longest prefix of `s` whose total size is within the budget. */
  lemma {:induction false} FitIsLongest<K>(s: seq<K>, size: K -> nat, budget: int)
    requires budget >= 0
    ensures Fit(s, size, budget) <= s
    ensures Sum(Fit(s, size, budget), size) <= budget
    ensures forall n: nat :: n <= |s| && Sum(s[..n], size) <= budget ==> n <= |Fit(s, size, budget)|
  {
    if s != [] && size(s[0]) <= budget {
      FitIsLongest(s[1..], size, budget - size(s[0]));
    }
    forall n: nat | n <= |s| && Sum(s[..n], size) <= budget
      ensures n <= |Fit(s, size, budget)|
    {
      if n > 0 {
        assert s[..n] == [s[0]] + s[1..][..n - 1];
        assert Sum(s[..n], size) == size(s[0]) + Sum(s[1..][..n - 1], size);
      }
    }
  }

  /** The converse: a prefix that fits, and whose one-longer prefix does not, is Fit. */
  lemma FitUnique<K>(s: seq<K>, size: K -> nat, budget: int, n: nat)
    requires budget >= 0 && n <= |s|
    requires Sum(s[..n], size) <= budget
    requires n < |s| ==> Sum(s[..n + 1], size) > budget
    ensures Fit(s, size, budget) == s[..n]
  {
    hide Fit, Sum;
    FitIsLongest(s, size, budget);
    var m := |Fit(s, size, budget)|;
    assert Fit(s, size, budget) == s[..m];
    if m > n {
      assert s[..m] == s[..n + 1] + s[n + 1..m];
      SumAppend(s[..n + 1], s[n + 1..m], size);
    }
  }

  lemma FitAll<K>(s: seq<K>, size: K -> nat, budget: int)
    requires Sum(s, size) <= budget
    ensures Fit(s, size, budget) == s
  {
    assert s[..|s|] == s;
    FitUnique(s, size, budget, |s|);
  }

  lemma {:induction false} FitMemberFits<K>(s: seq<K>, size: K -> nat, budget: int, k: K)
    requires k in Fit(s, size, budget)
    ensures size(k) <= budget && k in s
  {
    if k != s[0] {
      FitMemberFits(s[1..], size, budget - size(s[0]), k);
    }
  }

  lemma {:induction false} FitMonotone<K>(s: seq<K>, size: K -> nat, low: int, high: int)
    requires low <= high
    ensures Fit(s, size, low) <= Fit(s, size, high)
  {
    if s != [] && size(s[0]) <= low {
      FitMonotone(s[1..], size, low - size(s[0]), high - size(s[0]));
    }
  }

  lemma {:induction false} FitPrefix<K>(s: seq<K>, size: K -> nat, budget: int)
    ensures Fit(s, size, budget) <= s
  {
    if s != [] && size(s[0]) <= budget {
      FitPrefix(s[1..], size, budget - size(s[0]));
    }
  }

  lemma DistinctPrefix<K>(p: seq<K>, s: seq<K>)
    requires p <= s && Distinct(s)
    ensures Distinct(p)
  {
    forall i, j | 0 <= i < j < |p| ensures p[i] != p[j] {
      assert p[i] == s[i] && p[j] == s[j];
    }
  }

  lemma FitCons<K>(k: K, s: seq<K>, size: K -> nat, budget: int)
    requires size(k) <= budget
    ensures Fit([k] + s, size, budget) == [k] + Fit(s, size, budget - size(k))
  {
    assert ([k] + s)[1..] == s;
  }

  /** A miss: shrinking the resident prefix is the same as shrinking the whole history. */
  lemma {:induction false} FitMiss<K>(s: seq<K>, k: K, size: K -> nat, budget: int)
    requires k !in Fit(s, size, budget)
    ensures Fit(Without(s, k), size, budget - size(k)) == Fit(Fit(s, size, budget), size, budget - size(k))
  {
    if s != [] && s[0] != k && size(s[0]) <= budget {
      FitMiss(s[1..], k, size, budget - size(s[0]));
    } else if s != [] && s[0] == k {
      assert size(k) > budget;
    }
  }

  lemma FitUnfold<K>(s: seq<K>, size: K -> nat, budget: int)
    requires Fit(s, size, budget) != []
    ensures s != [] && size(s[0]) <= budget
    ensures Fit(s, size, budget) == [s[0]] + Fit(s[1..], size, budget - size(s[0]))
  {
  }

  lemma WithoutCons<K>(x: K, s: seq<K>, k: K)
    ensures Without([x] + s, k) == if x == k then Without(s, k) else [x] + Without(s, k)
  {
    assert ([x] + s)[1..] == s;
  }

  /** A hit: moving `k` to the front of the resident prefix leaves a maximal prefix of the new history. */
  lemma {:induction false} FitHit<K>(s: seq<K>, k: K, size: K -> nat, budget: int)
    requires Distinct(s) && k in Fit(s, size, budget)
    ensures Without(Fit(s, size, budget), k) == Fit(Without(s, k), size, budget - size(k))
  {
    hide Distinct, Fit, Without;
    FitUnfold(s, size, budget);
    var x, rest, room := s[0], s[1..], budget - size(s[0]);
    DistinctTail(s);
    assert s == [x] + rest;
    WithoutCons(x, Fit(rest, size, room), k);
    WithoutCons(x, rest, k);
    if x == k {
      FitPrefix(rest, size, room);
      WithoutAbsent(rest, k);
      WithoutAbsent(Fit(rest, size, room), k);
    } else {
      FitMemberFits(rest, size, room, k);
      FitHit(rest, k, size, room);
      FitCons(x, Without(rest, k), size, budget - size(k));
    }
  }

  /** The step of the exact characterisation: if the resident list is the longest fitting prefix of the
      history, it is so again after any admissible request. */
  lemma AdmitKeepsFit<K>(history: seq<K>, k: K, size: K -> nat, budget: int)
    requires Distinct(history) && size(k) <= budget
    ensures Admit(Fit(history, size, budget), k, size, budget) == Fit(Touch(history, k), size, budget)
  {
    FitCons(k, Without(history, k), size, budget);
    if k in Fit(history, size, budget) {
      FitHit(history, k, size, budget);
    } else {
      FitMiss(history, k, size, budget);
    }
  }

  lemma {:induction false} WithoutKeepsPrefix<K>(p: seq<K>, s: seq<K>, k: K)
    requires p <= s
    ensures Without(p, k) <= Without(s, k)
  {
    assert s == p + s[|p|..];
    WithoutAppend(p, s[|p|..], k);
  }

  /** With failing reads only the prefix half survives: whatever a request does, the resident list stays
      a prefix of the history. */
  lemma AdmitKeepsPrefix<K>(entries: seq<K>, history: seq<K>, k: K, size: K -> nat, budget: int)
    requires entries <= history && (k in entries || size(k) <= budget)
    ensures Admit(entries, k, size, budget) <= Touch(history, k)
  {
    WithoutKeepsPrefix(entries, history, k);
    if k !in entries {
      WithoutAbsent(entries, k);
      FitPrefix(entries, size, budget - size(k));
    }
  }

  lemma {:induction false} FitFit<K>(s: seq<K>, size: K -> nat, low: int, high: int)
    requires low <= high
    ensures Fit(Fit(s, size, high), size, low) == Fit(s, size, low)
  {
    if s != [] && size(s[0]) <= high {
      FitFit(s[1..], size, low - size(s[0]), high - size(s[0]));
    }
  }

  // ---------- Whole histories ----------

  /** The recency list after the requests `t`, oldest request first. */
  function Recent<K(==)>(t: seq<K>): seq<K> {
    if t == [] then [] else Touch(Recent(t[..|t| - 1]), t[|t| - 1])
  }

  lemma {:induction false} RecentFacts<K>(t: seq<K>)
    ensures Distinct(Recent(t)) && forall k :: k in Recent(t) <==> k in t
  {
    if t != [] {
      var u, x := t[..|t| - 1], t[|t| - 1];
      RecentFacts(u);
      TouchDistinct(Recent(u), x);
      WithoutMembers(Recent(u), x);
      assert t == u + [x];
    }
  }

  function Elements<K(==)>(s: seq<K>): set<K> {
    set x | x in s
  }

  lemma DistinctCardinality<K>(s: seq<K>)
    requires Distinct(s)
    ensures |Elements(s)| == |s|
  {
    if s != [] {
      DistinctTail(s);
      DistinctCardinality(s[1..]);
      assert Elements(s) == {s[0]} + Elements(s[1..]);
    }
  }

  /** How deep a key lies in the recency list: below exactly the keys used since its own last use. */
  lemma {:induction false} RecentDepth<K>(t: seq<K>, j: nat)
    requires j < |t| && t[j] !in t[j + 1..]
    ensures var depth := |Elements(t[j + 1..])|;
            && depth < |Recent(t)| && Recent(t)[depth] == t[j]
            && Elements(Recent(t)[..depth]) == Elements(t[j + 1..])
  {
    var u, x, depth := t[..|t| - 1], t[|t| - 1], |Elements(t[j + 1..])|;
    if j == |t| - 1 {
      assert t[j + 1..] == [];
    } else {
      assert t[j + 1..] == u[j + 1..] + [x];
      RecentDepth(u, j);
      RecentFacts(u);
      var d := |Elements(u[j + 1..])|;
      DeeperBy(Recent(u), d, x);
      assert Elements(t[j + 1..]) == Elements(u[j + 1..]) + {x};
    }
  }

  /** Touching another key pushes position `d` one down unless that key already lay above it. */
  lemma DeeperBy<K>(s: seq<K>, d: nat, x: K)
    requires Distinct(s) && d < |s| && x != s[d]
    ensures var e := if x in s[..d] then d else d + 1;
            e < |Touch(s, x)| && Touch(s, x)[e] == s[d] && Elements(Touch(s, x)[..e]) == Elements(s[..d]) + {x}
            && |Elements(s[..d]) + {x}| == e
  {
    hide Distinct, Without;
    var a, b := s[..d], s[d + 1..];
    assert s == a + ([s[d]] + b);
    DistinctPrefix(a, s);
    WithoutAppend(a, [s[d]] + b, x);
    WithoutCons(s[d], b, x);
    WithoutMembers(a, x);
    WithoutDistinct(a, x);
    DistinctCardinality(a);
    DistinctCardinality(Without(a, x));
    var e := if x in a then d else d + 1;
    assert Elements(Without(a, x)) == Elements(a) - {x};
    assert Touch(s, x) == ([x] + Without(a, x)) + ([s[d]] + Without(b, x));
    assert Touch(s, x)[..e] == [x] + Without(a, x);
    assert Elements([x] + Without(a, x)) == Elements(a) + {x};
  }
}
