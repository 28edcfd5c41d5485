/**
 The stratified train / validation / calibration split of one source.
 */
module StratifiedSplit {
  import opened DatasetRows
  import opened CleanPool

  // ---------- Sorting by id ----------

  function InsertById(r: Row, s: seq<Row>): seq<Row> {
    if s == [] || r.id < s[0].id then [r] + s else [s[0]] + InsertById(r, s[1..])
  }

  function ById(s: seq<Row>): seq<Row> {
    if s == [] then [] else InsertById(s[|s| - 1], ById(s[..|s| - 1]))
  }

  ghost predicate Sorted(s: seq<Row>) {
    forall i, j :: 0 <= i < j < |s| ==> s[i].id <= s[j].id
  }

  lemma {:induction false} InsertByIdKeeps(r: Row, s: seq<Row>)
    ensures multiset(InsertById(r, s)) == multiset(s) + multiset{r}
  {
    if s != [] && r.id >= s[0].id {
      InsertByIdKeeps(r, s[1..]);
      assert s == [s[0]] + s[1..];
    }
  }

  lemma {:induction false} InsertByIdSorts(r: Row, s: seq<Row>)
    requires Sorted(s)
    ensures Sorted(InsertById(r, s))
  {
    if s != [] && r.id >= s[0].id {
      InsertByIdSorts(r, s[1..]);
      InsertByIdKeeps(r, s[1..]);
      var t := InsertById(r, s[1..]);
      forall j | 0 <= j < |t| ensures s[0].id <= t[j].id {
        assert t[j] in multiset(t);
        assert t[j] == r || t[j] in s[1..];
      }
    }
  }

  lemma {:induction false} ByIdFacts(s: seq<Row>)
    ensures multiset(ById(s)) == multiset(s) && |ById(s)| == |s|
    ensures Sorted(ById(s))
  {
    if s != [] {
      var u, last := s[..|s| - 1], s[|s| - 1];
      assert s == u + [last];
      ByIdFacts(u);
      InsertByIdKeeps(last, ById(u));
      InsertByIdSorts(last, ById(u));
    }
    assert |multiset(ById(s))| == |multiset(s)|;
  }

  /** Rows with the same id are the same row. */
  ghost predicate IdsIdentify(rows: multiset<Row>) {
    forall r, s :: r in rows && s in rows && r.id == s.id ==> r == s
  }

  lemma LeastId(s: seq<Row>, r: Row)
    requires Sorted(s) && r in multiset(s)
    ensures s[0].id <= r.id
  {
  }

  lemma Tail(s: seq<Row>)
    requires s != []
    ensures s == [s[0]] + s[1..] && s[0] in multiset(s)
    ensures multiset(s[1..]) == multiset(s) - multiset{s[0]}
    ensures Sorted(s) ==> Sorted(s[1..])
    ensures IdsIdentify(multiset(s)) ==> IdsIdentify(multiset(s[1..]))
  {
    assert s == [s[0]] + s[1..];
    assert forall r :: r in multiset(s[1..]) ==> r in multiset(s);
  }

  lemma {:induction false} SortedUnique(s: seq<Row>, t: seq<Row>)
    requires Sorted(s) && Sorted(t) && multiset(s) == multiset(t) && IdsIdentify(multiset(s))
    ensures s == t
  {
    hide Sorted;
    assert |s| == |multiset(s)| == |multiset(t)| == |t|;
    if s != [] {
      Tail(s);
      Tail(t);
      LeastId(s, t[0]);
      LeastId(t, s[0]);
      assert s[0] == t[0];
      hide IdsIdentify;
      SortedUnique(s[1..], t[1..]);
    }
  }

  // ---------- The split ----------

  /** How `len(group) * .10` and `len(group) * .05` round. */
  datatype Rounding = Rounding(tenth: nat -> nat, twentieth: nat -> nat)

  function AtLeastOne(n: nat): nat {
    if n < 1 then 1 else n
  }

  function ValSize(n: nat, sizes: Rounding): nat {
    AtLeastOne(sizes.tenth(n))
  }

  function CalibSize(n: nat, sizes: Rounding): nat {
    AtLeastOne(sizes.twentieth(n))
  }

  datatype Parts = Parts(train: seq<Row>, val: seq<Row>, calib: seq<Row>)

  datatype Outcome = Ok(parts: Parts) | Insufficient(route: int)

  function Portion(rows: seq<Row>, k: nat, shuffle: (nat, seq<Row>) -> seq<Row>): seq<Row>
    requires k < |Labels(rows)|
  {
    shuffle(k, ById(Group(rows, Labels(rows)[k])))
  }

  function Enough(n: nat, sizes: Rounding): bool {
    n > ValSize(n, sizes) + CalibSize(n, sizes)
  }

  function Extend(p: Parts, group: seq<Row>, sizes: Rounding): Parts
    requires Enough(|group|, sizes)
  {
    var nv, nc := ValSize(|group|, sizes), CalibSize(|group|, sizes);
    Parts(p.train + group[nv + nc..], p.val + group[..nv], p.calib + group[nv..nv + nc])
  }

  function SplitGroups(rows: seq<Row>, n: nat, sizes: Rounding, shuffle: (nat, seq<Row>) -> seq<Row>): Outcome
    requires n <= |Labels(rows)|
  {
    if n == 0 then Ok(Parts([], [], []))
    else
      match SplitGroups(rows, n - 1, sizes, shuffle)
      case Insufficient(route) => Insufficient(route)
      case Ok(p) =>
        var group := Portion(rows, n - 1, shuffle);
        if Enough(|group|, sizes) then Ok(Extend(p, group, sizes)) else Insufficient(Labels(rows)[n - 1])
  }

  function StratifiedSplit(rows: seq<Row>, sizes: Rounding, shuffle: (nat, seq<Row>) -> seq<Row>): Outcome {
    SplitGroups(rows, |Labels(rows)|, sizes, shuffle)
  }

  lemma {:induction false} FailureStays(rows: seq<Row>, n: nat, m: nat, sizes: Rounding,
                                        shuffle: (nat, seq<Row>) -> seq<Row>)
    requires n <= m <= |Labels(rows)| && SplitGroups(rows, n, sizes, shuffle).Insufficient?
    ensures SplitGroups(rows, m, sizes, shuffle) == SplitGroups(rows, n, sizes, shuffle)
  {
    if n < m {
      FailureStays(rows, n, m - 1, sizes, shuffle);
    }
  }

  method SplitRows(rows: seq<Row>, sizes: Rounding, shuffle: (nat, seq<Row>) -> seq<Row>) returns (r: Outcome)
    ensures r == StratifiedSplit(rows, sizes, shuffle)
  {
    hide Enough, ValSize, CalibSize, Group, Labels, ById;
    var groups := GroupByLabel(rows);
    var routes := Labels(rows);
    assert forall x :: x in routes ==> x in groups;
    var train, val, calib := [], [], [];
    for k := 0 to |routes|
      invariant SplitGroups(rows, k, sizes, shuffle) == Ok(Parts(train, val, calib))
    {
      assert routes[k] in routes;
      var group := shuffle(k, ById(groups[routes[k]]));
      assert group == Portion(rows, k, shuffle);
      var nv, nc := ValSize(|group|, sizes), CalibSize(|group|, sizes);
      if !Enough(|group|, sizes) {
        FailureStays(rows, k + 1, |routes|, sizes, shuffle);
        return Insufficient(routes[k]);
      }
      EnoughCovers(|group|, sizes);
      val := val + group[..nv];
      calib := calib + group[nv..nv + nc];
      train := train + group[nv + nc..];
    }
    return Ok(Parts(train, val, calib));
  }

  lemma EnoughCovers(n: nat, sizes: Rounding)
    requires Enough(n, sizes)
    ensures ValSize(n, sizes) > 0 && CalibSize(n, sizes) > 0 && ValSize(n, sizes) + CalibSize(n, sizes) < n
  {
  }

  lemma PortionFacts(rows: seq<Row>, k: nat, shuffle: (nat, seq<Row>) -> seq<Row>)
    requires k < |Labels(rows)| && Permutes(shuffle)
    ensures multiset(Portion(rows, k, shuffle)) == multiset(Group(rows, Labels(rows)[k]))
    ensures |Portion(rows, k, shuffle)| == |Group(rows, Labels(rows)[k])|
    ensures forall r :: r in Portion(rows, k, shuffle) ==> r.route == Labels(rows)[k]
  {
    hide Labels, Permutes, Sorted, Group;
    var group := Group(rows, Labels(rows)[k]);
    ByIdFacts(group);
    ShuffleKeeps(shuffle, k, ById(group));
    GroupMembers(rows, Labels(rows)[k]);
    forall r | r in Portion(rows, k, shuffle) ensures r.route == Labels(rows)[k] {
      assert r in multiset(group);
    }
  }

  // ---------- When it succeeds ----------

  /** The split fails exactly when some label has too few rows, and names the first such label. */
  lemma {:induction false} SplitsExactly(rows: seq<Row>, n: nat, sizes: Rounding, shuffle: (nat, seq<Row>) -> seq<Row>)
    requires n <= |Labels(rows)| && Permutes(shuffle)
    ensures SplitGroups(rows, n, sizes, shuffle).Ok? <==>
              forall k :: 0 <= k < n ==> Enough(|Group(rows, Labels(rows)[k])|, sizes)
    ensures forall k :: 0 <= k < n && !Enough(|Group(rows, Labels(rows)[k])|, sizes) &&
                        (forall j :: 0 <= j < k ==> Enough(|Group(rows, Labels(rows)[j])|, sizes)) ==>
              SplitGroups(rows, n, sizes, shuffle) == Insufficient(Labels(rows)[k])
  {
    hide Labels, Group, Permutes, Enough, Extend, Portion;
    if n > 0 {
      SplitsExactly(rows, n - 1, sizes, shuffle);
      PortionFacts(rows, n - 1, shuffle);
    }
  }

  // ---------- Partition ----------

  ghost predicate Partitions(p: Parts, all: multiset<Row>) {
    multiset(p.train) + multiset(p.val) + multiset(p.calib) == all
  }

  lemma ExtendPartitions(p: Parts, all: multiset<Row>, group: seq<Row>, sizes: Rounding)
    requires Partitions(p, all) && Enough(|group|, sizes)
    ensures Partitions(Extend(p, group, sizes), all + multiset(group))
  {
    EnoughCovers(|group|, sizes);
    var nv, nc := ValSize(|group|, sizes), CalibSize(|group|, sizes);
    assert group == group[..nv] + group[nv..nv + nc] + group[nv + nc..];
    assert multiset(group) == multiset(group[..nv]) + multiset(group[nv..nv + nc]) + multiset(group[nv + nc..]);
  }

  lemma NothingSplit()
    ensures Partitions(Parts([], [], []), multiset{})
  {
  }

  lemma {:induction false} GroupsPartition(rows: seq<Row>, n: nat, sizes: Rounding,
                                           shuffle: (nat, seq<Row>) -> seq<Row>)
    requires n <= |Labels(rows)| && Permutes(shuffle) && SplitGroups(rows, n, sizes, shuffle).Ok?
    ensures Partitions(SplitGroups(rows, n, sizes, shuffle).parts, Grouped(rows, Labels(rows)[..n]))
  {
    hide Labels, Group, Permutes, Enough, Extend, Portion, Partitions;
    if n == 0 {
      NothingSplit();
      assert Labels(rows)[..0] == [];
    } else {
      GroupsPartition(rows, n - 1, sizes, shuffle);
      PortionFacts(rows, n - 1, shuffle);
      var labels := Labels(rows);
      assert labels[..n][..n - 1] == labels[..n - 1];
      ExtendPartitions(SplitGroups(rows, n - 1, sizes, shuffle).parts, Grouped(rows, labels[..n - 1]),
                       Portion(rows, n - 1, shuffle), sizes);
    }
  }

  /** Train, validation and calibration together are the given rows, each as often as it was given. */
  lemma SplitPartitions(rows: seq<Row>, sizes: Rounding, shuffle: (nat, seq<Row>) -> seq<Row>)
    requires Permutes(shuffle) && StratifiedSplit(rows, sizes, shuffle).Ok?
    ensures Partitions(StratifiedSplit(rows, sizes, shuffle).parts, multiset(rows))
  {
    hide Labels, Permutes, Partitions, SplitGroups;
    GroupsPartition(rows, |Labels(rows)|, sizes, shuffle);
    assert Labels(rows)[..|Labels(rows)|] == Labels(rows);
    GroupingPartitions(rows);
  }

  // ---------- Every label in every part ----------

  ghost predicate Shares(p: Parts, x: int, nt: nat, nv: nat, nc: nat) {
    |Group(p.train, x)| == nt && |Group(p.val, x)| == nv && |Group(p.calib, x)| == nc
  }

  lemma ExtendGroups(p: Parts, x: int, group: seq<Row>, route: int, sizes: Rounding)
    requires Enough(|group|, sizes) && (forall r :: r in group ==> r.route == route)
    ensures var q, nv, nc := Extend(p, group, sizes), ValSize(|group|, sizes), CalibSize(|group|, sizes);
            && Group(q.train, x) == Group(p.train, x) + (if x == route then group[nv + nc..] else [])
            && Group(q.val, x) == Group(p.val, x) + (if x == route then group[..nv] else [])
            && Group(q.calib, x) == Group(p.calib, x) + (if x == route then group[nv..nv + nc] else [])
  {
    hide Group, ValSize, CalibSize;
    EnoughCovers(|group|, sizes);
    var nv, nc := ValSize(|group|, sizes), CalibSize(|group|, sizes);
    GroupAppend(p.train, group[nv + nc..], x);
    GroupAppend(p.val, group[..nv], x);
    GroupAppend(p.calib, group[nv..nv + nc], x);
    GroupUniform(group[nv + nc..], route, x);
    GroupUniform(group[..nv], route, x);
    GroupUniform(group[nv..nv + nc], route, x);
  }

  lemma LabelStep(p: Parts, x: int, nt: nat, nv: nat, nc: nat, group: seq<Row>, route: int, sizes: Rounding)
    requires Shares(p, x, nt, nv, nc)
    requires Enough(|group|, sizes) && (forall r :: r in group ==> r.route == route)
    ensures x != route ==> Shares(Extend(p, group, sizes), x, nt, nv, nc)
    ensures x == route && nt == nv == nc == 0 ==> OwnShares(Extend(p, group, sizes), x, |group|, sizes)
  {
    hide Group, ValSize, CalibSize;
    EnoughCovers(|group|, sizes);
    ExtendGroups(p, x, group, route, sizes);
  }

  /** The shares of a label with m rows. */
  ghost predicate OwnShares(p: Parts, x: int, m: nat, sizes: Rounding) {
    && Enough(m, sizes)
    && Shares(p, x, m - ValSize(m, sizes) - CalibSize(m, sizes), ValSize(m, sizes), CalibSize(m, sizes))
  }

  lemma {:induction false} LabelShares(rows: seq<Row>, n: nat, sizes: Rounding, shuffle: (nat, seq<Row>) -> seq<Row>,
                                       k: nat)
    requires n <= |Labels(rows)| && Permutes(shuffle) && SplitGroups(rows, n, sizes, shuffle).Ok? && k < |Labels(rows)|
    ensures k < n ==> OwnShares(SplitGroups(rows, n, sizes, shuffle).parts, Labels(rows)[k],
                                |Group(rows, Labels(rows)[k])|, sizes)
    ensures k >= n ==> Shares(SplitGroups(rows, n, sizes, shuffle).parts, Labels(rows)[k], 0, 0, 0)
  {
    hide Labels, Permutes, Enough, Extend, Portion, Shares, OwnShares, Group;
    if n == 0 {
      NoShares(Labels(rows)[k]);
    } else {
      LabelShares(rows, n - 1, sizes, shuffle, k);
      PortionFacts(rows, n - 1, shuffle);
      DifferentLabels(rows, k, n - 1);
      var p := SplitGroups(rows, n - 1, sizes, shuffle).parts;
      var group, labels := Portion(rows, n - 1, shuffle), Labels(rows);
      if k >= n - 1 {
        LabelStep(p, labels[k], 0, 0, 0, group, labels[n - 1], sizes);
      } else {
        var m := |Group(rows, labels[k])|;
        OwnIsShares(p, labels[k], m, sizes);
        LabelStep(p, labels[k], m - ValSize(m, sizes) - CalibSize(m, sizes), ValSize(m, sizes), CalibSize(m, sizes),
                  group, labels[n - 1], sizes);
        OwnIsShares(Extend(p, group, sizes), labels[k], m, sizes);
      }
    }
  }

  lemma NoShares(x: int)
    ensures Shares(Parts([], [], []), x, 0, 0, 0)
  {
  }

  lemma OwnIsShares(p: Parts, x: int, m: nat, sizes: Rounding)
    ensures OwnShares(p, x, m, sizes) <==>
              && Enough(m, sizes) && ValSize(m, sizes) + CalibSize(m, sizes) < m
              && Shares(p, x, m - ValSize(m, sizes) - CalibSize(m, sizes), ValSize(m, sizes), CalibSize(m, sizes))
  {
  }

  lemma DifferentLabels(rows: seq<Row>, i: nat, j: nat)
    requires i < |Labels(rows)| && j < |Labels(rows)|
    ensures Labels(rows)[i] == Labels(rows)[j] <==> i == j
  {
    LabelsFacts(rows);
  }

  /** Every label has exactly its share in every part, and no share is empty: validation takes the tenth and
      calibration the twentieth, each at least one row. */
  lemma EveryLabelEverywhere(rows: seq<Row>, sizes: Rounding, shuffle: (nat, seq<Row>) -> seq<Row>, x: int)
    requires Permutes(shuffle) && StratifiedSplit(rows, sizes, shuffle).Ok? && x in Labels(rows)
    ensures var p, n := StratifiedSplit(rows, sizes, shuffle).parts, |Group(rows, x)|;
            && |Group(p.val, x)| == (if sizes.tenth(n) < 1 then 1 else sizes.tenth(n))
            && |Group(p.calib, x)| == (if sizes.twentieth(n) < 1 then 1 else sizes.twentieth(n))
            && |Group(p.train, x)| == n - |Group(p.val, x)| - |Group(p.calib, x)| > 0
  {
    hide Labels, Permutes, SplitGroups, Group;
    var k :| 0 <= k < |Labels(rows)| && Labels(rows)[k] == x;
    LabelShares(rows, |Labels(rows)|, sizes, shuffle, k);
    assert OwnShares(StratifiedSplit(rows, sizes, shuffle).parts, x, |Group(rows, x)|, sizes);
    EnoughCovers(|Group(rows, x)|, sizes);
  }

  /** Rounding, to whichever side at a tie, stays within half a row. */
  ghost predicate Rounds(sizes: Rounding) {
    forall n: nat :: -5 <= 10 * sizes.tenth(n) - n <= 5 && -10 <= 20 * sizes.twentieth(n) - n <= 10
  }

  /** Hence validation has a tenth of every label that has ten rows, and calibration a twentieth of every label
      that has twenty, within half a row. */
  lemma TenthAndTwentieth(rows: seq<Row>, sizes: Rounding, shuffle: (nat, seq<Row>) -> seq<Row>, x: int)
    requires Permutes(shuffle) && Rounds(sizes) && StratifiedSplit(rows, sizes, shuffle).Ok? && x in Labels(rows)
    ensures var p, n := StratifiedSplit(rows, sizes, shuffle).parts, |Group(rows, x)|;
            && (n >= 10 ==> -5 <= 10 * |Group(p.val, x)| - n <= 5)
            && (n >= 20 ==> -10 <= 20 * |Group(p.calib, x)| - n <= 10)
  {
    hide Labels, Permutes, StratifiedSplit, Group;
    EveryLabelEverywhere(rows, sizes, shuffle, x);
    var n := |Group(rows, x)|;
    assert -5 <= 10 * sizes.tenth(n) - n <= 5 && -10 <= 20 * sizes.twentieth(n) - n <= 10;
  }

  /** And with rounding a label has enough rows for the split if and only if it has at least three. */
  lemma EnoughIsThree(n: nat, sizes: Rounding)
    requires Rounds(sizes)
    ensures Enough(n, sizes) <==> n >= 3
  {
    assert -5 <= 10 * sizes.tenth(n) - n <= 5 && -10 <= 20 * sizes.twentieth(n) - n <= 10;
  }

  // ---------- No state in two parts ----------

  ghost predicate NoSharedKey(s: seq<Row>, t: seq<Row>, key: string -> string) {
    forall r, q :: r in s && q in t ==> key(r.state) != key(q.state)
  }

  lemma Place(s: seq<Row>, r: Row) returns (i: nat)
    requires r in multiset(s)
    ensures i < |s| && s[i] == r && multiset(s[..i]) + multiset(s[i + 1..]) == multiset(s) - multiset{r}
  {
    i :| 0 <= i < |s| && s[i] == r;
    assert s == s[..i] + [r] + s[i + 1..];
    assert multiset(s) == multiset(s[..i]) + multiset{r} + multiset(s[i + 1..]);
  }

  lemma TwoPlaces(s: seq<Row>, r: Row, q: Row) returns (i: nat, j: nat)
    requires multiset{r} + multiset{q} <= multiset(s)
    ensures i < |s| && j < |s| && i != j && s[i] == r && s[j] == q
  {
    i := Place(s, r);
    assert q in multiset(s) - multiset{r};
    if q in multiset(s[..i]) {
      j := Place(s[..i], q);
    } else {
      var k := Place(s[i + 1..], q);
      j := i + 1 + k;
    }
  }

  lemma TwoRows(all: seq<Row>, key: string -> string, r: Row, q: Row)
    requires KeysDiffer(all, key) && multiset{r} + multiset{q} <= multiset(all)
    ensures key(r.state) != key(q.state)
  {
    var i, j := TwoPlaces(all, r, q);
    if i < j {
      assert key(all[i].state) != key(all[j].state);
    } else {
      assert key(all[j].state) != key(all[i].state);
    }
  }

  lemma DisjointParts(all: seq<Row>, s: seq<Row>, t: seq<Row>, key: string -> string)
    requires KeysDiffer(all, key) && multiset(s) + multiset(t) <= multiset(all)
    ensures NoSharedKey(s, t, key)
  {
    hide KeysDiffer;
    forall r, q | r in s && q in t ensures key(r.state) != key(q.state) {
      assert multiset{r} <= multiset(s) && multiset{q} <= multiset(t);
      TwoRows(all, key, r, q);
    }
  }

  /** Splitting a cleaned pool leaves no normalised state in two parts and no protected state in any. */
  lemma CleanedSplitSharesNoState(rows: seq<Row>, held: set<string>, key: string -> string, sizes: Rounding,
                                  shuffle: (nat, seq<Row>) -> seq<Row>)
    requires Permutes(shuffle) && StratifiedSplit(Cleaned(rows, held, key), sizes, shuffle).Ok?
    ensures var p := StratifiedSplit(Cleaned(rows, held, key), sizes, shuffle).parts;
            && NoSharedKey(p.train, p.val, key)
            && NoSharedKey(p.train, p.calib, key)
            && NoSharedKey(p.val, p.calib, key)
            && forall r :: r in p.train || r in p.val || r in p.calib ==> r in rows && key(r.state) !in held
  {
    hide Permutes, StratifiedSplit, KeysDiffer, NoSharedKey, Cleaned;
    var pool := Cleaned(rows, held, key);
    CleanedKeys(rows, held, key);
    SplitPartitions(pool, sizes, shuffle);
    var p := StratifiedSplit(pool, sizes, shuffle).parts;
    DisjointParts(pool, p.train, p.val, key);
    DisjointParts(pool, p.train, p.calib, key);
    DisjointParts(pool, p.val, p.calib, key);
    forall r | r in p.train || r in p.val || r in p.calib ensures r in pool {
      assert r in multiset(p.train) || r in multiset(p.val) || r in multiset(p.calib);
      assert r in multiset(pool);
    }
  }

  // ---------- Independence of the input order ----------

  lemma SameLabels(rows: seq<Row>, other: seq<Row>)
    requires multiset(rows) == multiset(other)
    ensures Labels(rows) == Labels(other)
  {
    hide Labels;
    assert forall r :: (r in rows <==> r in multiset(rows)) && (r in other <==> r in multiset(other));
    LabelsFacts(rows);
    LabelsFacts(other);
    AscendingUnique(Labels(rows), Labels(other));
  }

  lemma SameGroup(rows: seq<Row>, other: seq<Row>, x: int)
    requires multiset(rows) == multiset(other) && IdsIdentify(multiset(rows))
    ensures ById(Group(rows, x)) == ById(Group(other, x))
  {
    hide ById, Group;
    var a, b := Group(rows, x), Group(other, x);
    forall r ensures multiset(a)[r] == multiset(b)[r] {
      GroupCount(rows, x, r);
      GroupCount(other, x, r);
    }
    assert multiset(a) == multiset(b);
    ByIdFacts(a);
    ByIdFacts(b);
    forall r | r in multiset(a) ensures r in multiset(rows) {
      GroupCount(rows, x, r);
    }
    SortedUnique(ById(a), ById(b));
  }

  /** Sorting before shuffling makes the split a function of the set of rows, not of the order they came in. */
  lemma {:induction false} SplitIgnoresOrder(rows: seq<Row>, other: seq<Row>, n: nat, sizes: Rounding,
                                             shuffle: (nat, seq<Row>) -> seq<Row>)
    requires multiset(rows) == multiset(other) && IdsIdentify(multiset(rows)) && n <= |Labels(rows)|
    ensures Labels(rows) == Labels(other)
    ensures SplitGroups(rows, n, sizes, shuffle) == SplitGroups(other, n, sizes, shuffle)
  {
    hide Labels, Group, ById, Enough, Extend, IdsIdentify;
    SameLabels(rows, other);
    if n > 0 {
      SplitIgnoresOrder(rows, other, n - 1, sizes, shuffle);
      SameGroup(rows, other, Labels(rows)[n - 1]);
    }
  }
}
