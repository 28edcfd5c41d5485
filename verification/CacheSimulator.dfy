/**
 The offline simulator: an LRU cache counted in entries, replayed over a captured routing trace, and its
 relation to the native cache whose hit rates it predicts.
 */
module CacheSimulator {
  import opened Recency
  import opened CacheState
  import opened CacheTraces
  import opened Options

  /** Every expert counts as one entry. */
  function One<K>(k: K): nat { 1 }

  /** The ordered dictionary's keys, oldest first, after one access. */
  function AccessOrder(order: seq<int>, id: int, capacity: int): seq<int> {
    if id in order then Without(order, id) + [id]
    else if |order| + 1 > capacity then (order + [id])[1..]
    else order + [id]
  }

  class LRUCache {
    const capacity: int
    var order: seq<int>

    constructor (capacity: int)
      ensures this.capacity == capacity && order == []
    {
      this.capacity := capacity;
      order := [];
    }

    method Access(id: int) returns (hit: bool)
      modifies this
      ensures hit == (id in old(order))
      ensures order == AccessOrder(old(order), id, capacity)
    {
      hit := id in order;
      if hit {
        order := Without(order, id) + [id];
      } else {
        order := order + [id];
        if |order| > capacity {
          order := order[1..];
        }
      }
    }
  }

  function OrderAfter(t: seq<int>, capacity: int): seq<int> {
    if t == [] then [] else AccessOrder(OrderAfter(t[..|t| - 1], capacity), t[|t| - 1], capacity)
  }

  function HitsAfter(t: seq<int>, capacity: int): nat {
    if t == [] then 0
    else HitsAfter(t[..|t| - 1], capacity) + if t[|t| - 1] in OrderAfter(t[..|t| - 1], capacity) then 1 else 0
  }

  function Newest<T>(s: seq<T>): seq<T> {
    if s == [] then [] else Newest(s[1..]) + [s[0]]
  }

  lemma {:induction false} NewestAppend<T>(s: seq<T>, t: seq<T>)
    ensures Newest(s + t) == Newest(t) + Newest(s)
  {
    if s == [] {
      assert s + t == t;
    } else {
      assert (s + t)[1..] == s[1..] + t;
      NewestAppend(s[1..], t);
    }
  }

  lemma {:induction false} NewestFacts<T>(s: seq<T>)
    ensures |Newest(s)| == |s| && forall k :: k in Newest(s) <==> k in s
  {
    if s != [] {
      NewestFacts(s[1..]);
      assert s == [s[0]] + s[1..];
    }
  }

  lemma {:induction false} NewestWithout<T>(s: seq<T>, k: T)
    ensures Newest(Without(s, k)) == Without(Newest(s), k)
  {
    if s != [] {
      NewestWithout(s[1..], k);
      WithoutAppend(Newest(s[1..]), [s[0]], k);
      WithoutCons(s[0], [], k);
      NewestAppend([s[0]], Without(s[1..], k));
      assert Newest([s[0]]) == [s[0]];
    }
  }

  lemma {:induction false} FitOne<K>(s: seq<K>, n: int)
    ensures Fit(s, One, n) == s[..if n < 0 then 0 else if n < |s| then n else |s|]
  {
    if s != [] && n >= 1 {
      FitOne(s[1..], n - 1);
    }
  }

  lemma AccessIsAdmit(order: seq<int>, id: int, capacity: int)
    requires |order| <= if capacity > 0 then capacity else 0
    ensures Newest(AccessOrder(order, id, capacity)) == Admit(Newest(order), id, One, capacity)
    ensures |AccessOrder(order, id, capacity)| <= if capacity > 0 then capacity else 0
  {
    NewestFacts(order);
    NewestAppend(order, [id]);
    assert Newest([id]) == [id];
    if id in order {
      NewestWithout(order, id);
      NewestAppend(Without(order, id), [id]);
      WithoutShorter(order, id);
    } else if |order| + 1 > capacity {
      FitOne(Newest(order), capacity - 1);
      if order != [] {
        assert (order + [id])[1..] == order[1..] + [id];
        NewestAppend(order[1..], [id]);
      }
    } else {
      FitOne(Newest(order), capacity - 1);
    }
  }

  lemma {:induction false} WithoutShorter<K>(s: seq<K>, k: K)
    requires k in s
    ensures |Without(s, k)| < |s|
  {
    if s[0] == k {
      WithoutMembers(s[1..], k);
    } else {
      WithoutShorter(s[1..], k);
    }
  }

  /** The simulator is the byte-budgeted cache of entries of size one, read newest first. */
  lemma {:induction false} SimulatorIsUnitCache(t: seq<int>, capacity: int)
    ensures Newest(OrderAfter(t, capacity)) == Contents(t, One, capacity)
    ensures HitsAfter(t, capacity) == Hits(t, One, capacity)
    ensures |OrderAfter(t, capacity)| <= if capacity > 0 then capacity else 0
  {
    if t != [] {
      var u, x := t[..|t| - 1], t[|t| - 1];
      SimulatorIsUnitCache(u, capacity);
      AccessIsAdmit(OrderAfter(u, capacity), x, capacity);
      NewestFacts(OrderAfter(u, capacity));
    }
  }

  lemma {:induction false} SmallAll<K>(t: seq<K>, capacity: int)
    requires capacity >= 1
    ensures Small(t, One, capacity) == t
  {
    if t != [] {
      var u, x := t[..|t| - 1], t[|t| - 1];
      assert t == u + [x];
      SmallAll(u, capacity);
      Extend(u, x, One, capacity);
    }
  }

  // ---------- Stack distance ----------

  /** An access hits exactly when the id was used before and fewer than `capacity` different ids have been
      used since; `last` is the position of its latest use. */
  lemma StackDistance(past: seq<int>, last: nat, capacity: int)
    requires last < |past| && past[last] !in past[last + 1..]
    ensures past[last] in OrderAfter(past, capacity) <==> |Elements(past[last + 1..])| < capacity
  {
    var id, depth := past[last], |Elements(past[last + 1..])|;
    SimulatorIsUnitCache(past, capacity);
    NewestFacts(OrderAfter(past, capacity));
    ContentsExact(past, One, capacity);
    if capacity >= 1 {
      SmallAll(past, capacity);
      var history := Recent(past);
      FitOne(history, capacity);
      RecentFacts(past);
      RecentDepth(past, last);
      var f := Fit(history, One, capacity);
      if depth < capacity {
        assert f[depth] == id;
      }
      forall i | 0 <= i < |f| && f[i] == id ensures depth < capacity {
        assert history[i] == history[depth];
      }
    }
  }

  lemma NeverUsedMisses(past: seq<int>, id: int, capacity: int)
    requires id !in past
    ensures id !in OrderAfter(past, capacity)
  {
    SimulatorIsUnitCache(past, capacity);
    NewestFacts(OrderAfter(past, capacity));
    OnlySeenKeys(past, One, capacity);
  }

  /** A larger simulated cache contains the smaller one and hits at least as often. */
  lemma CapacityMonotone(t: seq<int>, low: int, high: int)
    requires low <= high
    ensures forall id :: id in OrderAfter(t, low) ==> id in OrderAfter(t, high)
    ensures HitsAfter(t, low) <= HitsAfter(t, high)
  {
    SimulatorIsUnitCache(t, low);
    SimulatorIsUnitCache(t, high);
    NewestFacts(OrderAfter(t, low));
    NewestFacts(OrderAfter(t, high));
    if low >= 1 {
      BudgetMonotone(t, One, low, high);
      var a, b := Contents(t, One, low), Contents(t, One, high);
      forall id | id in a ensures id in b {
        var i :| 0 <= i < |a| && a[i] == id;
        assert b[i] == id;
      }
    } else {
      NoCapacityNoHits(t, low);
    }
  }

  lemma {:induction false} NoCapacityNoHits(t: seq<int>, capacity: int)
    requires capacity <= 0
    ensures OrderAfter(t, capacity) == [] && HitsAfter(t, capacity) == 0
  {
    if t != [] {
      NoCapacityNoHits(t[..|t| - 1], capacity);
    }
  }

  // ---------- Predicting the native cache ----------

  function Slices(t: seq<int>, key: int -> Key): seq<Key> {
    if t == [] then [] else Slices(t[..|t| - 1], key) + [key(t[|t| - 1])]
  }

  ghost predicate OneKeyPerExpert(key: int -> Key, length: nat) {
    && (forall i, j :: key(i) == key(j) ==> i == j)
    && (forall i :: key(i).length == length)
  }

  function MapKeys(s: seq<int>, key: int -> Key): seq<Key> {
    if s == [] then [] else [key(s[0])] + MapKeys(s[1..], key)
  }

  lemma {:induction false} MapMembers(s: seq<int>, key: int -> Key, length: nat, id: int)
    requires OneKeyPerExpert(key, length)
    ensures key(id) in MapKeys(s, key) <==> id in s
  {
    if s != [] {
      MapMembers(s[1..], key, length, id);
      assert s == [s[0]] + s[1..];
      assert key(id) == key(s[0]) <==> id == s[0];
    }
  }

  lemma {:induction false} MapWithout(s: seq<int>, key: int -> Key, length: nat, id: int)
    requires OneKeyPerExpert(key, length)
    ensures Without(MapKeys(s, key), key(id)) == MapKeys(Without(s, id), key)
  {
    if s != [] {
      MapWithout(s[1..], key, length, id);
      assert key(id) == key(s[0]) <==> id == s[0];
      assert MapKeys(s, key)[1..] == MapKeys(s[1..], key);
      if s[0] != id {
        assert ([s[0]] + Without(s[1..], id))[1..] == Without(s[1..], id);
      }
    }
  }

  lemma QuotientUnique(b: int, p: int, m: int, q: int, r: int)
    requires p * b + m == q * b + r && 0 <= m < b && 0 <= r < b
    ensures p == q
  {
    if p > q {
      Difference(p, q, b);
    } else if p < q {
      Difference(q, p, b);
    }
  }

  lemma Difference(p: int, q: int, b: int)
    requires p > q && b >= 0
    ensures p * b - q * b >= b
  {
    var d := p - q;
    assert p * b == q * b + d * b;
    assert d * b >= b by {
      assert (d - 1) * b >= 0;
    }
  }

  lemma Floor(budget: int, length: int)
    requires length >= 1
    ensures (budget - length) / length == budget / length - 1
    ensures length > budget <==> 1 > budget / length
  {
    var q, r := budget / length, budget % length;
    assert budget - length == (q - 1) * length + r;
    QuotientUnique(length, (budget - length) / length, (budget - length) % length, q - 1, r);
    if q >= 1 {
      assert q * length >= length;
    } else {
      assert q * length <= 0;
    }
  }

  lemma MapCons(id: int, s: seq<int>, key: int -> Key)
    ensures MapKeys([id] + s, key) == [key(id)] + MapKeys(s, key)
  {
    assert ([id] + s)[1..] == s;
  }

  lemma {:induction false} MapFit(s: seq<int>, key: int -> Key, length: nat, budget: int)
    requires OneKeyPerExpert(key, length) && length >= 1
    ensures Fit(MapKeys(s, key), Length, budget) == MapKeys(Fit(s, One, budget / length), key)
  {
    Floor(budget, length);
    if s != [] {
      MapFit(s[1..], key, length, budget - length);
      assert s == [s[0]] + s[1..];
      MapCons(s[0], s[1..], key);
      assert MapKeys(s, key)[0] == key(s[0]) && MapKeys(s, key)[1..] == MapKeys(s[1..], key);
      assert Length(key(s[0])) == length && One(s[0]) == 1;
      MapCons(s[0], Fit(s[1..], One, budget / length - 1), key);
    }
  }

  lemma MapAdmit(s: seq<int>, key: int -> Key, length: nat, budget: int, id: int)
    requires OneKeyPerExpert(key, length) && length >= 1
    ensures Admit(MapKeys(s, key), key(id), Length, budget) == MapKeys(Admit(s, id, One, budget / length), key)
  {
    hide Fit;
    Floor(budget, length);
    MapMembers(s, key, length, id);
    MapWithout(s, key, length, id);
    MapFit(s, key, length, budget - length);
  }

  /** With one key of one length per expert, the native cache of budget B and the simulator of capacity
      B div L hold the same experts in the same order and give the same verdict on every access. */
  lemma {:induction false} SimulatorPredictsNative(t: seq<int>, key: int -> Key, length: nat, budget: nat)
    requires OneKeyPerExpert(key, length) && length >= 1
    ensures Contents(Slices(t, key), Length, budget) == MapKeys(Newest(OrderAfter(t, budget / length)), key)
    ensures Hits(Slices(t, key), Length, budget) == HitsAfter(t, budget / length)
    ensures forall id :: key(id) in Contents(Slices(t, key), Length, budget) <==> id in OrderAfter(t, budget / length)
  {
    hide Admit;
    SimulatorIsUnitCache(t, budget / length);
    if t != [] {
      var u, x := t[..|t| - 1], t[|t| - 1];
      SimulatorPredictsNative(u, key, length, budget);
      SimulatorIsUnitCache(u, budget / length);
      Extend(Slices(u, key), key(x), Length, budget);
      MapAdmit(Contents(u, One, budget / length), key, length, budget, x);
    }
    NewestFacts(OrderAfter(t, budget / length));
    forall id ensures key(id) in Contents(Slices(t, key), Length, budget) <==> id in OrderAfter(t, budget / length) {
      MapMembers(Newest(OrderAfter(t, budget / length)), key, length, id);
    }
  }

  /** The same statement about the native cache's own state: opened, replayed, and asked for its hit counter. */
  lemma SimulatorPredictsHitCounter(s: State, t: seq<int>, key: int -> Key, length: nat)
    requires s.open && !s.pageWarm && s.entries == [] && s.counters == NO_COUNTS
    requires OneKeyPerExpert(key, length) && length >= 1
    requires forall k :: k in Slices(t, key) ==> InRange(s, k)
    ensures Replay(s, Slices(t, key)).counters.hits == HitsAfter(t, s.budget / length)
    ensures Replay(s, Slices(t, key)).entries == MapKeys(Newest(OrderAfter(t, s.budget / length)), key)
  {
    ReplayIsTrace(s, Slices(t, key));
    SimulatorPredictsNative(t, key, length, s.budget);
  }

  // ---------- Evaluating one layer of a trace ----------

  datatype Record = Record(tokenIndex: int, experts: seq<int>)

  function Insert(r: Record, s: seq<Record>): seq<Record> {
    if s == [] || r.tokenIndex < s[0].tokenIndex then [r] + s else [s[0]] + Insert(r, s[1..])
  }

  /** Stable: records with equal token index keep their order. */
  function SortByToken(records: seq<Record>): seq<Record> {
    if records == [] then [] else Insert(records[|records| - 1], SortByToken(records[..|records| - 1]))
  }

  ghost predicate Sorted(s: seq<Record>) {
    forall i, j :: 0 <= i < j < |s| ==> s[i].tokenIndex <= s[j].tokenIndex
  }

  lemma {:induction false} InsertKeepsRows(r: Record, s: seq<Record>)
    ensures multiset(Insert(r, s)) == multiset(s) + multiset{r}
  {
    if s != [] {
      assert s == [s[0]] + s[1..];
      InsertKeepsRows(r, s[1..]);
    }
  }

  lemma SortedCons(x: Record, s: seq<Record>)
    requires Sorted(s) && forall y :: y in s ==> x.tokenIndex <= y.tokenIndex
    ensures Sorted([x] + s)
  {
    forall i, j | 0 <= i < j < |s| + 1 ensures ([x] + s)[i].tokenIndex <= ([x] + s)[j].tokenIndex {
      assert ([x] + s)[j] == s[j - 1];
      if i > 0 {
        assert ([x] + s)[i] == s[i - 1];
      }
    }
  }

  lemma {:induction false} InsertSorts(r: Record, s: seq<Record>)
    requires Sorted(s)
    ensures Sorted(Insert(r, s))
  {
    if s == [] || r.tokenIndex < s[0].tokenIndex {
      SortedCons(r, s);
    } else {
      InsertSorts(r, s[1..]);
      InsertKeepsRows(r, s[1..]);
      var rest := Insert(r, s[1..]);
      forall x | x in rest ensures s[0].tokenIndex <= x.tokenIndex {
        assert x in multiset(rest);
      }
      SortedCons(s[0], rest);
    }
  }

  lemma {:induction false} SortByTokenSorts(records: seq<Record>)
    ensures Sorted(SortByToken(records)) && multiset(SortByToken(records)) == multiset(records)
  {
    if records != [] {
      var u, r := records[..|records| - 1], records[|records| - 1];
      assert records == u + [r];
      SortByTokenSorts(u);
      InsertSorts(r, SortByToken(u));
      InsertKeepsRows(r, SortByToken(u));
    }
  }

  /** The records of one token index, in order. */
  function AtToken(records: seq<Record>, tokenIndex: int): seq<Record> {
    if records == [] then []
    else (if records[0].tokenIndex == tokenIndex then [records[0]] else []) + AtToken(records[1..], tokenIndex)
  }

  lemma {:induction false} AtTokenAppend(s: seq<Record>, t: seq<Record>, tokenIndex: int)
    ensures AtToken(s + t, tokenIndex) == AtToken(s, tokenIndex) + AtToken(t, tokenIndex)
  {
    if s == [] {
      assert s + t == t;
    } else {
      assert (s + t)[0] == s[0] && (s + t)[1..] == s[1..] + t;
      AtTokenAppend(s[1..], t, tokenIndex);
      var first := if s[0].tokenIndex == tokenIndex then [s[0]] else [];
      assert AtToken(s + t, tokenIndex) == first + AtToken(s[1..] + t, tokenIndex);
      assert AtToken(s, tokenIndex) == first + AtToken(s[1..], tokenIndex);
      assert first + (AtToken(s[1..], tokenIndex) + AtToken(t, tokenIndex)) ==
             first + AtToken(s[1..], tokenIndex) + AtToken(t, tokenIndex);
    }
  }

  lemma {:induction false} InsertIsStable(r: Record, s: seq<Record>, tokenIndex: int)
    requires Sorted(s)
    ensures AtToken(Insert(r, s), tokenIndex) == AtToken(s, tokenIndex) + AtToken([r], tokenIndex)
  {
    if s == [] || r.tokenIndex < s[0].tokenIndex {
      AtTokenAppend([r], s, tokenIndex);
      if r.tokenIndex == tokenIndex {
        NoneAt(s, tokenIndex);
      }
    } else {
      InsertIsStable(r, s[1..], tokenIndex);
      AtTokenAppend([s[0]], Insert(r, s[1..]), tokenIndex);
      AtTokenAppend([s[0]], s[1..], tokenIndex);
      assert [s[0]] + s[1..] == s;
    }
  }

  lemma {:induction false} NoneAt(s: seq<Record>, tokenIndex: int)
    requires forall i :: 0 <= i < |s| ==> s[i].tokenIndex > tokenIndex
    ensures AtToken(s, tokenIndex) == []
  {
    if s != [] {
      NoneAt(s[1..], tokenIndex);
    }
  }

  /** The sort is stable: records of one token keep the order they were captured in. */
  lemma {:induction false} SortByTokenIsStable(records: seq<Record>, tokenIndex: int)
    ensures AtToken(SortByToken(records), tokenIndex) == AtToken(records, tokenIndex)
  {
    hide AtToken, Sorted;
    if records != [] {
      var u, r := records[..|records| - 1], records[|records| - 1];
      assert records == u + [r];
      SortByTokenIsStable(u, tokenIndex);
      SortByTokenSorts(u);
      InsertIsStable(r, SortByToken(u), tokenIndex);
      AtTokenAppend(u, [r], tokenIndex);
    }
  }

  /** All selections of the records, in order. */
  function Selections(records: seq<Record>): seq<int> {
    if records == [] then [] else Selections(records[..|records| - 1]) + records[|records| - 1].experts
  }

  function History(records: seq<Record>): seq<set<int>> {
    if records == [] then [] else History(records[..|records| - 1]) + [Elements(records[|records| - 1].experts)]
  }

  /** How many selected experts a predictor named in advance; nothing is predicted for the first token. */
  function Predicted(records: seq<Record>, predict: seq<set<int>> -> set<int>): nat {
    if records == [] then 0
    else
      var u := records[..|records| - 1];
      Predicted(u, predict) +
      if History(u) == [] then 0 else |predict(History(u)) * Elements(records[|records| - 1].experts)|
  }

  // ---------- The three predictors ----------

  function PreviousToken(history: seq<set<int>>): set<int> {
    if history == [] then {} else history[|history| - 1]
  }

  /** The slice `history[-n:]`: the last n tokens, or for n <= 0 all but the first -n. */
  function LastTokens(history: seq<set<int>>, n: int): seq<set<int>> {
    if n > 0 then history[if n < |history| then |history| - n else 0..]
    else history[if -n < |history| then -n else |history|..]
  }

  /** The k most frequent experts; which ones among equally frequent is up to the library. */
  type Frequency = (seq<set<int>>, nat) -> set<int>

  function FrequencyOfAll(frequency: Frequency, k: nat): seq<set<int>> -> set<int> {
    history => frequency(history, k)
  }

  function FrequencyOfLast(frequency: Frequency, n: int, k: nat): seq<set<int>> -> set<int> {
    history => frequency(LastTokens(history, n), k)
  }

  function Rate(hits: nat, total: nat): Option<real> {
    if total == 0 then None else Some(hits as real / total as real)
  }

  datatype Recall = Recall(previousToken: Option<real>, frequencyAll: Option<real>, lastN: Option<real>)

  /** Predictors enter the report with the second token. */
  datatype Report = Report(tokens: nat, expertsUsed: nat, selections: nat, hitRate: Option<real>,
                           recall: Option<Recall>)

  function RecallOf(records: seq<Record>, frequency: Frequency, n: int, k: nat): Option<Recall> {
    var total := |Selections(records)|;
    if |records| < 2 then None
    else Some(Recall(Rate(Predicted(records, PreviousToken), total),
                     Rate(Predicted(records, FrequencyOfAll(frequency, k)), total),
                     Rate(Predicted(records, FrequencyOfLast(frequency, n, k)), total)))
  }

  // ---------- What they predict, token by token ----------

  /** The expert sets of the tokens from `low` up to but not including `high`. */
  function Sets(records: seq<Record>, low: nat, high: nat): (sets: seq<set<int>>)
    requires low <= high <= |records|
    ensures |sets| == high - low
    ensures forall i :: 0 <= i < |sets| ==> sets[i] == Elements(records[low + i].experts)
  {
    seq(high - low, i requires 0 <= i < high - low => Elements(records[low + i].experts))
  }

  lemma {:induction false} HistoryIsSets(records: seq<Record>, i: nat)
    requires i <= |records|
    ensures History(records[..i]) == Sets(records, 0, i)
  {
    hide Elements;
    if i > 0 {
      HistoryIsSets(records, i - 1);
      assert records[..i][..i - 1] == records[..i - 1];
    }
  }

  /** Where the window of the last-n predictor begins at token i. */
  function WindowStart(n: int, i: nat): nat {
    if n > 0 then if i > n then i - n else 0
    else if -n < i then -n else i
  }

  /** Hits of naming, at each token but the first, the experts of the token before. */
  function PairHits(records: seq<Record>, i: nat): nat
    requires i <= |records|
  {
    if i <= 1 then 0
    else PairHits(records, i - 1) + |Elements(records[i - 2].experts) * Elements(records[i - 1].experts)|
  }

  /** Hits of naming, at each token but the first, the most frequent experts of the tokens from `start` on. */
  function FrequentHits(records: seq<Record>, i: nat, frequency: Frequency, k: nat, start: nat -> nat): nat
    requires i <= |records|
  {
    if i <= 1 then 0
    else
      var low := if start(i - 1) <= i - 1 then start(i - 1) else i - 1;
      FrequentHits(records, i - 1, frequency, k, start) +
      |frequency(Sets(records, low, i - 1), k) * Elements(records[i - 1].experts)|
  }

  lemma {:induction false} PreviousTokenHits(records: seq<Record>, i: nat)
    requires i <= |records|
    ensures Predicted(records[..i], PreviousToken) == PairHits(records, i)
  {
    if i > 0 {
      PreviousTokenHits(records, i - 1);
      ExtendPredicted(records, i - 1, PreviousToken);
      HistoryIsSets(records, i - 1);
    }
  }

  lemma {:induction false} FrequencyHits(records: seq<Record>, i: nat, frequency: Frequency, k: nat,
                                         predict: seq<set<int>> -> set<int>, start: nat -> nat)
    requires i <= |records|
    requires forall j :: 0 < j < |records| ==>
               start(j) <= j && predict(Sets(records, 0, j)) == frequency(Sets(records, start(j), j), k)
    ensures Predicted(records[..i], predict) == FrequentHits(records, i, frequency, k, start)
  {
    hide Elements, Sets;
    if i > 0 {
      FrequencyHits(records, i - 1, frequency, k, predict, start);
      ExtendPredicted(records, i - 1, predict);
      HistoryIsSets(records, i - 1);
      SetsLength(records, i - 1);
    }
  }

  lemma SetsLength(records: seq<Record>, i: nat)
    requires i <= |records|
    ensures |Sets(records, 0, i)| == i
  {
  }

  lemma LastTokensAre(records: seq<Record>, n: int, i: nat)
    requires i <= |records|
    ensures WindowStart(n, i) <= i && LastTokens(Sets(records, 0, i), n) == Sets(records, WindowStart(n, i), i)
  {
  }

  /** What the three predictors are credited with, by position: the experts of the token before; the most frequent
      of all tokens before; the most frequent of the n tokens before, or of all there are. */
  lemma PredictionsByPosition(records: seq<Record>, frequency: Frequency, n: int, k: nat)
    ensures Predicted(records, PreviousToken) == PairHits(records, |records|)
    ensures Predicted(records, FrequencyOfAll(frequency, k)) ==
            FrequentHits(records, |records|, frequency, k, FromFirst)
    ensures Predicted(records, FrequencyOfLast(frequency, n, k)) ==
            FrequentHits(records, |records|, frequency, k, FromWindow(n))
    ensures forall i: nat :: FromFirst(i) == 0 && (n > 0 ==> FromWindow(n)(i) == if i > n then i - n else 0)
  {
    hide Sets, LastTokens, WindowStart, Predicted;
    assert records[..|records|] == records;
    PreviousTokenHits(records, |records|);
    FrequencyHits(records, |records|, frequency, k, FrequencyOfAll(frequency, k), FromFirst);
    forall j | 0 < j < |records|
      ensures FromWindow(n)(j) <= j &&
              FrequencyOfLast(frequency, n, k)(Sets(records, 0, j)) ==
              frequency(Sets(records, FromWindow(n)(j), j), k)
    {
      LastTokensAre(records, n, j);
    }
    FrequencyHits(records, |records|, frequency, k, FrequencyOfLast(frequency, n, k), FromWindow(n));
    forall i: nat ensures n > 0 ==> FromWindow(n)(i) == if i > n then i - n else 0 {
      WindowIs(n, i);
    }
  }

  function FromFirst(i: nat): nat {
    0
  }

  function FromWindow(n: int): nat -> nat {
    i => WindowStart(n, i)
  }

  lemma WindowIs(n: int, i: nat)
    ensures n > 0 ==> WindowStart(n, i) == if i > n then i - n else 0
  {
  }

  /** A reported rate times the number of selections is the number of hits. */
  lemma RateMeans(hits: nat, total: nat)
    ensures total == 0 <==> Rate(hits, total).None?
    ensures total > 0 ==> Rate(hits, total).value * total as real == hits as real
  {
  }

  lemma ExtendAccess(u: seq<int>, x: int, capacity: int)
    ensures OrderAfter(u + [x], capacity) == AccessOrder(OrderAfter(u, capacity), x, capacity)
    ensures HitsAfter(u + [x], capacity) == HitsAfter(u, capacity) + if x in OrderAfter(u, capacity) then 1 else 0
  {
    assert (u + [x])[..|u|] == u;
  }

  lemma ExtendSelections(records: seq<Record>, i: nat)
    requires i < |records|
    ensures var u, r := records[..i], records[i];
            && Selections(records[..i + 1]) == Selections(u) + r.experts
            && History(records[..i + 1]) == History(u) + [Elements(r.experts)]
  {
    assert records[..i + 1][..i] == records[..i];
  }

  lemma ExtendPredicted(records: seq<Record>, i: nat, predict: seq<set<int>> -> set<int>)
    requires i < |records|
    ensures var u, r := records[..i], records[i];
            Predicted(records[..i + 1], predict) ==
              Predicted(u, predict) + if History(u) == [] then 0 else |predict(History(u)) * Elements(r.experts)|
  {
    assert records[..i + 1][..i] == records[..i];
  }

  lemma StartOfLayer(capacity: int, predict: seq<set<int>> -> set<int>)
    ensures Selections([]) == [] && History([]) == [] && Predicted([], predict) == 0
    ensures OrderAfter([], capacity) == [] && HitsAfter([], capacity) == 0
  {
  }

  /** The accesses of one token, on a cache that has seen `before`. */
  method AccessAll(cache: LRUCache, ghost before: seq<int>, experts: seq<int>) returns (hits: nat)
    requires cache.order == OrderAfter(before, cache.capacity)
    modifies cache
    ensures cache.order == OrderAfter(before + experts, cache.capacity)
    ensures HitsAfter(before, cache.capacity) + hits == HitsAfter(before + experts, cache.capacity)
  {
    hide OrderAfter, HitsAfter;
    hits := 0;
    assert before + experts[..0] == before;
    for j := 0 to |experts|
      invariant cache.order == OrderAfter(before + experts[..j], cache.capacity)
      invariant HitsAfter(before, cache.capacity) + hits == HitsAfter(before + experts[..j], cache.capacity)
    {
      assert before + experts[..j + 1] == before + experts[..j] + [experts[j]];
      ExtendAccess(before + experts[..j], experts[j], cache.capacity);
      var hit := cache.Access(experts[j]);
      if hit {
        hits := hits + 1;
      }
    }
    assert experts[..|experts|] == experts;
  }

  lemma SortByTokenLength(records: seq<Record>)
    ensures |SortByToken(records)| == |records|
  {
    SortByTokenSorts(records);
    assert |multiset(SortByToken(records))| == |multiset(records)|;
  }

  lemma RecallIs(records: seq<Record>, frequency: Frequency, n: int, k: nat)
    ensures var total := |Selections(records)|;
            RecallOf(records, frequency, n, k) ==
              if |records| < 2 then None
              else Some(Recall(Rate(Predicted(records, PreviousToken), total),
                               Rate(Predicted(records, FrequencyOfAll(frequency, k)), total),
                               Rate(Predicted(records, FrequencyOfLast(frequency, n, k)), total)))
  {
  }

  /** Replays one layer. */
  method EvaluateLayer(input: seq<Record>, capacity: int, n: int, frequency: Frequency) returns (report: Report)
    ensures var records := SortByToken(input);
            var k, total := if input == [] then 0 else |records[0].experts|, |Selections(records)|;
            report == Report(|input|, k, total, Rate(HitsAfter(Selections(records), capacity), total),
                             RecallOf(records, frequency, n, k))
  {
    hide Selections, History, Predicted, OrderAfter, HitsAfter, SortByToken, Elements, Rate, RecallOf;
    hide FrequencyOfAll, FrequencyOfLast, PreviousToken;
    SortByTokenLength(input);
    var records := SortByToken(input);
    var k := if records != [] then |records[0].experts| else 0;
    var previous, all, last := PreviousToken, FrequencyOfAll(frequency, k), FrequencyOfLast(frequency, n, k);
    StartOfLayer(capacity, previous);
    StartOfLayer(capacity, all);
    StartOfLayer(capacity, last);
    var cache := new LRUCache(capacity);
    var history: seq<set<int>> := [];
    var lruHits, total := 0, 0;
    var byPrevious, byAll, byLast := 0, 0, 0;
    for i := 0 to |records|
      invariant history == History(records[..i]) && total == |Selections(records[..i])|
      invariant cache.capacity == capacity && cache.order == OrderAfter(Selections(records[..i]), capacity)
      invariant lruHits == HitsAfter(Selections(records[..i]), capacity)
      invariant byPrevious == Predicted(records[..i], previous)
      invariant byAll == Predicted(records[..i], all)
      invariant byLast == Predicted(records[..i], last)
    {
      ghost var before := Selections(records[..i]);
      var experts := records[i].experts;
      ExtendSelections(records, i);
      ExtendPredicted(records, i, previous);
      ExtendPredicted(records, i, all);
      ExtendPredicted(records, i, last);
      total := total + |experts|;
      var hits := AccessAll(cache, before, experts);
      lruHits := lruHits + hits;
      var actual := Elements(experts);
      if history != [] {
        byPrevious := byPrevious + |previous(history) * actual|;
        byAll := byAll + |all(history) * actual|;
        byLast := byLast + |last(history) * actual|;
      }
      history := history + [actual];
    }
    assert records[..|records|] == records;
    RecallIs(records, frequency, n, k);
    report := Report(|records|, k, total, Rate(lruHits, total),
                     if |records| < 2 then None
                     else Some(Recall(Rate(byPrevious, total), Rate(byAll, total), Rate(byLast, total))));
  }

  lemma {:induction false} ElementsBound(s: seq<int>)
    ensures |Elements(s)| <= |s|
  {
    if s != [] {
      ElementsBound(s[1..]);
      assert Elements(s) == {s[0]} + Elements(s[1..]);
    }
  }

  lemma SubsetSize(a: set<int>, b: set<int>)
    requires a <= b
    ensures |a| <= |b|
  {
    assert b == a + (b - a);
  }

  /** No predictor recalls more than was selected, whatever it computes. */
  lemma {:induction false} RecallAtMostOne(records: seq<Record>, predict: seq<set<int>> -> set<int>)
    ensures Predicted(records, predict) <= |Selections(records)|
  {
    if records != [] {
      var u, actual := records[..|records| - 1], records[|records| - 1].experts;
      RecallAtMostOne(u, predict);
      ElementsBound(actual);
      SubsetSize(predict(History(u)) * Elements(actual), Elements(actual));
    }
  }

  predicate IsShare(r: Option<real>) {
    r.Some? ==> 0.0 <= r.value <= 1.0
  }

  lemma RateIsShare(hits: nat, total: nat)
    requires hits <= total
    ensures IsShare(Rate(hits, total))
  {
  }

  /** Hence every rate in a report is a share of the selections. */
  lemma RatesAreShares(records: seq<Record>, capacity: int, frequency: Frequency, n: int, k: nat)
    ensures IsShare(Rate(HitsAfter(Selections(records), capacity), |Selections(records)|))
    ensures var recall := RecallOf(records, frequency, n, k);
            recall.Some? ==>
              IsShare(recall.value.previousToken) && IsShare(recall.value.frequencyAll) && IsShare(recall.value.lastN)
  {
    hide Selections, Predicted, HitsAfter, IsShare, Rate;
    var total := |Selections(records)|;
    HitsBound(Selections(records), capacity);
    RateIsShare(HitsAfter(Selections(records), capacity), total);
    RecallAtMostOne(records, PreviousToken);
    RecallAtMostOne(records, FrequencyOfAll(frequency, k));
    RecallAtMostOne(records, FrequencyOfLast(frequency, n, k));
    RateIsShare(Predicted(records, PreviousToken), total);
    RateIsShare(Predicted(records, FrequencyOfAll(frequency, k)), total);
    RateIsShare(Predicted(records, FrequencyOfLast(frequency, n, k)), total);
  }

  /** The evaluator's hit count never decreases as the capacity grows, on any trace in any order. */
  lemma LayerHitsMonotone(input: seq<Record>, low: int, high: int)
    requires low <= high
    ensures HitsAfter(Selections(SortByToken(input)), low) <= HitsAfter(Selections(SortByToken(input)), high)
                                                           <= |Selections(SortByToken(input))|
  {
    CapacityMonotone(Selections(SortByToken(input)), low, high);
    HitsBound(Selections(SortByToken(input)), high);
  }

  lemma {:induction false} HitsBound(t: seq<int>, capacity: int)
    ensures HitsAfter(t, capacity) <= |t|
  {
    if t != [] {
      HitsBound(t[..|t| - 1], capacity);
    }
  }
}
