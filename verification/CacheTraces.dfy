/**
 Replaying request traces against caches of different budgets.
 */
module CacheTraces {
  import opened Recency
  import opened CacheState

  /** Contents of a cache of the given budget after every request of `t` was served. */
  function Contents<K(==)>(t: seq<K>, size: K -> nat, budget: int): seq<K> {
    if t == [] then [] else Admit(Contents(t[..|t| - 1], size, budget), t[|t| - 1], size, budget)
  }

  function Hits<K(==)>(t: seq<K>, size: K -> nat, budget: int): nat {
    if t == [] then 0
    else Hits(t[..|t| - 1], size, budget) + if t[|t| - 1] in Contents(t[..|t| - 1], size, budget) then 1 else 0
  }

  /** The requests no larger than `limit`. */
  function Small<K>(t: seq<K>, size: K -> nat, limit: int): seq<K> {
    if t == [] then []
    else Small(t[..|t| - 1], size, limit) + if size(t[|t| - 1]) <= limit then [t[|t| - 1]] else []
  }

  /** A cache holds the longest fitting prefix of the history of the requests it could admit. */
  lemma {:induction false} ContentsExact<K>(t: seq<K>, size: K -> nat, budget: int)
    ensures Contents(t, size, budget) == Fit(Recent(Small(t, size, budget)), size, budget)
  {
    if t != [] {
      var u, x := t[..|t| - 1], t[|t| - 1];
      ContentsExact(u, size, budget);
      RecentFacts(Small(u, size, budget));
      var small, history := Small(u, size, budget), Recent(Small(u, size, budget));
      if size(x) <= budget {
        AdmitKeepsFit(history, x, size, budget);
        assert (small + [x])[..|small|] == small;
      } else {
        assert small + [] == small;
      }
      if size(x) > budget && x in Fit(history, size, budget) {
        FitMemberFits(history, size, budget, x);
      }
    }
  }

  ghost predicate NoneBetween<K>(t: seq<K>, size: K -> nat, low: int, high: int) {
    forall k :: k in t ==> size(k) <= low || size(k) > high
  }

  lemma {:induction false} SameSmall<K>(t: seq<K>, size: K -> nat, low: int, high: int)
    requires low <= high && NoneBetween(t, size, low, high)
    ensures Small(t, size, low) == Small(t, size, high)
  {
    if t != [] {
      assert t[|t| - 1] in t;
      SameSmall(t[..|t| - 1], size, low, high);
    }
  }

  /** Budget monotonicity: when no request has a size that only the larger budget admits, the smaller cache
      is always a prefix of the larger one and never hits more often. */
  lemma {:induction false} BudgetMonotone<K>(t: seq<K>, size: K -> nat, low: int, high: int)
    requires low <= high && NoneBetween(t, size, low, high)
    ensures Contents(t, size, low) <= Contents(t, size, high)
    ensures Hits(t, size, low) <= Hits(t, size, high)
  {
    SameSmall(t, size, low, high);
    ContentsExact(t, size, low);
    ContentsExact(t, size, high);
    FitMonotone(Recent(Small(t, size, low)), size, low, high);
    if t != [] {
      BudgetMonotone(t[..|t| - 1], size, low, high);
    }
  }

  /** How each notion grows with one more request. */
  lemma Extend<K>(u: seq<K>, x: K, size: K -> nat, budget: int)
    ensures Contents(u + [x], size, budget) == Admit(Contents(u, size, budget), x, size, budget)
    ensures Hits(u + [x], size, budget) == Hits(u, size, budget) + if x in Contents(u, size, budget) then 1 else 0
    ensures Small(u + [x], size, budget) == Small(u, size, budget) + if size(x) <= budget then [x] else []
    ensures Recent(u + [x]) == Touch(Recent(u), x)
  {
    assert (u + [x])[..|u|] == u;
  }

  lemma AdmitMember<K>(c: seq<K>, x: K, size: K -> nat, budget: int, k: K)
    requires k in Admit(c, x, size, budget)
    ensures k in c || (k == x && size(x) <= budget)
  {
    if k != x && x in c {
      assert k in Without(c, x);
      WithoutMembers(c, x);
    } else if k != x && size(x) <= budget {
      FitPrefix(c, size, budget - size(x));
      var f := Fit(c, size, budget - size(x));
      var i :| 0 <= i < |f| && f[i] == k;
      assert c[i] == k;
    }
  }

  lemma {:induction false} OnlySeenKeys<K>(t: seq<K>, size: K -> nat, budget: int)
    ensures forall k :: k in Contents(t, size, budget) ==> k in t && size(k) <= budget
  {
    if t != [] {
      var u, x := t[..|t| - 1], t[|t| - 1];
      assert t == u + [x];
      OnlySeenKeys(u, size, budget);
      forall k | k in Contents(t, size, budget) ensures k in t && size(k) <= budget {
        AdmitMember(Contents(u, size, budget), x, size, budget, k);
      }
    }
  }

  // ---------- Where monotonicity ends ----------

  function Big(i: nat, length: nat): Key {
    Key(0, i + 1, 0, length)
  }

  /** One small request followed by `n` different requests of the given length. */
  function Burst(small: nat, n: nat, length: nat): seq<Key> {
    if n == 0 then [Key(0, 0, 0, small)] else Burst(small, n - 1, length) + [Big(n - 1, length)]
  }

  lemma {:induction false} BurstKeys(small: nat, n: nat, length: nat)
    ensures forall k :: k in Burst(small, n, length) ==>
              k == Key(0, 0, 0, small) || (k.length == length && 1 <= k.expert <= n)
  {
    if n > 0 {
      BurstKeys(small, n - 1, length);
    }
  }

  /** A cache too small for the burst keeps the first slice all along. */
  lemma {:induction false} BurstRefused(small: nat, n: nat, length: nat, budget: nat)
    requires small <= budget < length
    ensures Contents(Burst(small, n, length), Length, budget) == [Key(0, 0, 0, small)]
  {
    if n == 0 {
      assert Burst(small, 0, length) == [] + [Key(0, 0, 0, small)];
      Extend([], Key(0, 0, 0, small), Length, budget);
    } else {
      BurstRefused(small, n - 1, length, budget);
      Extend(Burst(small, n - 1, length), Big(n - 1, length), Length, budget);
    }
  }

  /** A cache that admits the burst never hits during it. */
  lemma {:induction false} BurstAllMisses(small: nat, n: nat, length: nat, budget: nat)
    requires small <= length <= budget
    ensures Hits(Burst(small, n, length), Length, budget) == 0
    ensures Small(Burst(small, n, length), Length, budget) == Burst(small, n, length)
  {
    hide Hits, Small, Contents, Recent;
    if n == 0 {
      assert Burst(small, 0, length) == [] + [Key(0, 0, 0, small)];
      Extend([], Key(0, 0, 0, small), Length, budget);
      NothingYet(budget);
    } else {
      var u := Burst(small, n - 1, length);
      BurstAllMisses(small, n - 1, length, budget);
      BurstKeys(small, n - 1, length);
      OnlySeenKeys(u, Length, budget);
      Extend(u, Big(n - 1, length), Length, budget);
    }
  }

  lemma NothingYet(budget: int)
    ensures Contents<Key>([], Length, budget) == [] && Hits<Key>([], Length, budget) == 0
    ensures Small<Key>([], Length, budget) == [] && Recent<Key>([]) == []
  {
  }

  /** The history of the burst: all its slices, the small one oldest. */
  lemma {:induction false} BurstHistory(small: nat, n: nat, length: nat)
    ensures var history := Recent(Burst(small, n, length));
            && Sum(history, Length) == small + n * length
            && |history| == n + 1 && history[n] == Key(0, 0, 0, small)
  {
    hide Recent, Hits, Small, Contents, Distinct, Admit, Sum, Without;
    if n == 0 {
      assert Burst(small, 0, length) == [] + [Key(0, 0, 0, small)];
      Extend([], Key(0, 0, 0, small), Length, 0);
      WithoutAbsent([], Key(0, 0, 0, small));
      SumCons(Key(0, 0, 0, small), []);
      NothingSummed();
      NothingYet(0);
    } else {
      var u, x := Burst(small, n - 1, length), Big(n - 1, length);
      BurstHistory(small, n - 1, length);
      BurstKeys(small, n - 1, length);
      RecentFacts(u);
      Extend(u, x, Length, 0);
      WithoutAbsent(Recent(u), x);
      SumCons(x, Recent(u));
      Times(n, length);
    }
  }

  lemma Times(n: nat, length: nat)
    requires n > 0
    ensures n * length == (n - 1) * length + length
  {
  }

  lemma NothingSummed()
    ensures Sum<Key>([], Length) == 0
  {
  }

  lemma SumCons(x: Key, s: seq<Key>)
    ensures Sum([x] + s, Length) == x.length + Sum(s, Length)
  {
    assert ([x] + s)[1..] == s;
  }

  /** One slice length that only the larger budget admits is enough to make the larger cache hit less. */
  lemma LargerBudgetCanLose(low: nat, high: nat, small: nat, length: nat)
    requires 1 <= small <= low < length <= high
    ensures var t := Burst(small, high, length) + [Key(0, 0, 0, small)];
            && (forall k :: k in t ==> k.length == small || k.length == length)
            && Hits(t, Length, high) < Hits(t, Length, low)
  {
    hide Recent, Hits, Small, Contents, Fit, Burst, Sum;
    var b, first := Burst(small, high, length), Key(0, 0, 0, small);
    BurstKeys(small, high, length);
    BurstRefused(small, high, length, low);
    BurstAllMisses(small, high, length, high);
    BurstHistory(small, high, length);
    ContentsExact(b, Length, high);
    RecentFacts(b);
    Extend(b, first, Length, low);
    Extend(b, first, Length, high);
    assert high * length >= high;
    if first in Contents(b, Length, high) {
      LastFits(Recent(b), high);
    }
  }

  /** When the oldest slice of a history is still resident, the whole history fits. */
  lemma LastFits(history: seq<Key>, budget: nat)
    requires Distinct(history) && history != [] && history[|history| - 1] in Fit(history, Length, budget)
    ensures Sum(history, Length) <= budget
  {
    FitIsLongest(history, Length, budget);
    var f := Fit(history, Length, budget);
    var i :| 0 <= i < |f| && f[i] == history[|history| - 1];
    assert f[i] == history[i];
    assert f == history;
  }

  ghost predicate Drawn(t: seq<Key>, lengths: iset<nat>) {
    forall k :: k in t ==> k.length in lengths
  }

  ghost predicate MonotoneOn(lengths: iset<nat>, low: nat, high: nat) {
    forall t: seq<Key> :: Drawn(t, lengths) ==> Hits(t, Length, low) <= Hits(t, Length, high)
  }

  /** A cache that admits nothing never hits. */
  lemma {:induction false} NothingFits(t: seq<Key>, budget: nat)
    requires forall k :: k in t ==> k.length > budget
    ensures Contents(t, Length, budget) == [] && Hits(t, Length, budget) == 0
  {
    if t != [] {
      assert t[|t| - 1] in t;
      NothingFits(t[..|t| - 1], budget);
    }
  }

  /** The exact condition, for positive lengths as every load demands: a larger budget never hits less on any
      trace over the given slice lengths if and only if no such length lies above the smaller budget and within
      the larger one, or the smaller budget admits none of them at all. */
  lemma MonotoneExactly(lengths: iset<nat>, low: nat, high: nat)
    requires low <= high && 0 !in lengths
    ensures MonotoneOn(lengths, low, high) <==>
              (forall n :: n in lengths ==> n <= low || n > high) || (forall n :: n in lengths ==> n > low)
  {
    if n, small :| n in lengths && low < n <= high && small in lengths && small <= low {
      LargerBudgetCanLose(low, high, small, n);
      var t := Burst(small, high, n) + [Key(0, 0, 0, small)];
      assert Drawn(t, lengths);
    } else if forall n :: n in lengths ==> n > low {
      forall t: seq<Key> | Drawn(t, lengths) ensures Hits(t, Length, low) <= Hits(t, Length, high) {
        NothingFits(t, low);
      }
    } else {
      forall t: seq<Key> | Drawn(t, lengths) ensures Hits(t, Length, low) <= Hits(t, Length, high) {
        BudgetMonotone(t, Length, low, high);
      }
    }
  }

  // ---------- The native cache replaying a trace ----------

  /** The state after every request of `t` was loaded and served. */
  function Replay(s: State, t: seq<Key>): State {
    if t == [] then s else LoadEffect(Replay(s, t[..|t| - 1]), t[|t| - 1], true)
  }

  /** A freshly opened native cache is the trace cache of its budget, contents and hit counter alike. */
  lemma {:induction false} ReplayIsTrace(s: State, t: seq<Key>)
    requires s.open && !s.pageWarm && s.entries == [] && s.counters == NO_COUNTS
    requires forall k :: k in t ==> InRange(s, k)
    ensures var r := Replay(s, t);
            && r == s.(entries := Contents(t, Length, s.budget), counters := r.counters)
            && r.counters.hits == Hits(t, Length, s.budget)
  {
    if t != [] {
      ReplayIsTrace(s, t[..|t| - 1]);
      assert t[|t| - 1] in t;
      LoadFrame(Replay(s, t[..|t| - 1]), t[|t| - 1], true);
    }
  }
}
