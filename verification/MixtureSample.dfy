/**
 The weighted mixture of several sources: how many rows of each, and which.
 */
module MixtureSample {
  import opened DatasetRows
  import opened RoundRobin

  // ---------- One source ----------

  /** No row more often than the source has it, and all labels served alike while they last. */
  ghost predicate FairSample(rows: seq<Row>, count: nat, s: seq<Row>) {
    && |s| == count
    && multiset(s) <= multiset(rows)
    && exists r: nat :: Balanced(rows, s, r)
  }

  /** Every label got r rows or r + 1, or all it has. */
  ghost predicate Balanced(rows: seq<Row>, s: seq<Row>, r: nat) {
    forall x :: x in Labels(rows) ==> Min(|Group(rows, x)|, r) <= |Group(s, x)| <= Min(|Group(rows, x)|, r + 1)
  }

  ghost predicate PoolsOf(pools: seq<seq<Row>>, rows: seq<Row>, labels: seq<int>) {
    && |pools| == |labels|
    && forall k :: 0 <= k < |pools| ==> multiset(pools[k]) == multiset(Group(rows, labels[k]))
  }

  lemma PoolFacts(pools: seq<seq<Row>>, rows: seq<Row>, labels: seq<int>, k: nat)
    requires PoolsOf(pools, rows, labels) && k < |pools|
    ensures |pools[k]| == |Group(rows, labels[k])|
    ensures forall r :: r in pools[k] ==> r.route == labels[k]
  {
    assert |multiset(pools[k])| == |multiset(Group(rows, labels[k]))|;
    GroupMembers(rows, labels[k]);
    forall r | r in pools[k] ensures r.route == labels[k] {
      assert r in multiset(Group(rows, labels[k]));
    }
  }

  lemma PoolsLabelled(pools: seq<seq<Row>>, rows: seq<Row>, labels: seq<int>)
    requires PoolsOf(pools, rows, labels) && Different(labels)
    ensures Labelled(pools, labels)
  {
    hide PoolsOf, Group;
    assert |pools| == |labels| by { PoolsSize(pools, rows, labels); }
    forall k, r | 0 <= k < |pools| && r in pools[k] ensures r.route == labels[k] {
      PoolFacts(pools, rows, labels, k);
    }
  }

  lemma PoolsSize(pools: seq<seq<Row>>, rows: seq<Row>, labels: seq<int>)
    requires PoolsOf(pools, rows, labels)
    ensures |pools| == |labels|
  {
  }

  lemma {:induction false} PoolsTotal(pools: seq<seq<Row>>, rows: seq<Row>, labels: seq<int>, n: nat)
    requires PoolsOf(pools, rows, labels) && n <= |pools| == |labels|
    ensures Total(pools, n) == |Grouped(rows, labels[..n])|
  {
    if n > 0 {
      PoolsTotal(pools, rows, labels, n - 1);
      assert labels[..n][..n - 1] == labels[..n - 1];
      PoolFacts(pools, rows, labels, n - 1);
    }
  }

  lemma DrawsBalanced(pools: seq<seq<Row>>, rows: seq<Row>, labels: seq<int>, r: nat, p: nat)
    requires PoolsOf(pools, rows, labels) && Different(labels) && p <= |pools|
    requires forall x :: x in Labels(rows) ==> x in labels
    ensures Balanced(rows, Draws(pools, r, p), r)
  {
    hide PoolsOf, Labels, Group, Draws;
    PoolsSize(pools, rows, labels);
    PoolsLabelled(pools, rows, labels);
    forall x | x in Labels(rows)
      ensures Min(|Group(rows, x)|, r) <= |Group(Draws(pools, r, p), x)| <= Min(|Group(rows, x)|, r + 1)
    {
      var k :| 0 <= k < |labels| && labels[k] == x;
      PoolFacts(pools, rows, labels, k);
      DrawsOfLabel(pools, labels, r, p, k);
      TopDownRows(pools[k], Level(|pools[k]|, r, p, k));
    }
  }

  lemma DrawsWithin(pools: seq<seq<Row>>, rows: seq<Row>, labels: seq<int>, r: nat, p: nat)
    requires PoolsOf(pools, rows, labels) && Different(labels) && p <= |pools|
    ensures multiset(Draws(pools, r, p)) <= multiset(rows)
  {
    hide Labelled, Group, Draws;
    PoolsLabelled(pools, rows, labels);
    var s := Draws(pools, r, p);
    forall z | z in multiset(s) ensures multiset(s)[z] <= multiset(rows)[z] {
      assert z in s;
      DrawsLabels(pools, labels, r, p, z);
      var k :| 0 <= k < |labels| && labels[k] == z.route;
      GroupCount(s, z.route, z);
      GroupCount(rows, z.route, z);
      DrawsOfLabel(pools, labels, r, p, k);
      TopDownRows(pools[k], Level(|pools[k]|, r, p, k));
      assert multiset(TopDown(pools[k], Level(|pools[k]|, r, p, k)))[z] <= multiset(pools[k])[z];
    }
  }

  /** Any outcome of shuffling a list of labels. */
  ghost predicate Reorders(order: (nat, seq<int>) -> seq<int>) {
    forall n: nat, s: seq<int> :: multiset(order(n, s)) == multiset(s)
  }

  lemma {:induction false} DifferentOnce(s: seq<int>, x: int)
    requires Different(s)
    ensures multiset(s)[x] <= 1
  {
    if s != [] {
      DifferentOnce(s[1..], x);
      assert s == [s[0]] + s[1..];
      assert s[0] !in s[1..];
    }
  }

  lemma TwiceCounted(s: seq<int>, i: nat, j: nat)
    requires i < j < |s| && s[i] == s[j]
    ensures multiset(s)[s[i]] >= 2
  {
    assert s == s[..i] + [s[i]] + s[i + 1..];
    assert multiset(s) == multiset(s[..i]) + multiset{s[i]} + multiset(s[i + 1..]);
    assert s[i + 1..][j - i - 1] == s[i];
    assert s[i] in multiset(s[i + 1..]);
  }

  lemma ShuffledLabels(order: (nat, seq<int>) -> seq<int>, n: nat, rows: seq<Row>)
    requires Reorders(order)
    ensures var labels := order(n, Labels(rows));
            Different(labels) && |labels| == |Labels(rows)| && forall x :: x in labels <==> x in Labels(rows)
  {
    hide Labels;
    var sorted, labels := Labels(rows), order(n, Labels(rows));
    LabelsFacts(rows);
    assert multiset(labels) == multiset(sorted);
    assert |labels| == |multiset(labels)| == |multiset(sorted)| == |sorted|;
    forall i, j | 0 <= i < j < |labels| ensures labels[i] != labels[j] {
      DifferentOnce(sorted, labels[i]);
      if labels[i] == labels[j] {
        TwiceCounted(labels, i, j);
      }
    }
    forall x ensures x in labels <==> x in sorted {
      assert x in labels <==> x in multiset(labels);
      assert x in sorted <==> x in multiset(sorted);
    }
  }

  method SampleSource(rows: seq<Row>, count: nat, labels: seq<int>, n: nat, shuffle: (nat, seq<Row>) -> seq<Row>)
    returns (sampled: seq<Row>)
    requires Permutes(shuffle) && count <= |rows|
    requires Different(labels) && forall x :: x in labels <==> x in Labels(rows)
    ensures FairSample(rows, count, sampled)
  {
    hide Permutes, Labels, Group, Balanced, Draws, Different;
    var groups := GroupByLabel(rows);
    var pools: seq<seq<Row>> := [];
    for k := 0 to |labels|
      invariant |pools| == k
      invariant forall j :: 0 <= j < k ==> multiset(pools[j]) == multiset(Group(rows, labels[j]))
    {
      assert labels[k] in labels;
      ShuffleKeeps(shuffle, n + k, groups[labels[k]]);
      pools := pools + [shuffle(n + k, groups[labels[k]])];
    }
    assert PoolsOf(pools, rows, labels);
    Enough(pools, rows, labels);
    sampled := DrawRoundRobin(pools, count);
    SampleIsFair(pools, rows, labels, count, sampled);
  }

  lemma Enough(pools: seq<seq<Row>>, rows: seq<Row>, labels: seq<int>)
    requires PoolsOf(pools, rows, labels) && Different(labels) && forall x :: x in labels <==> x in Labels(rows)
    ensures Total(pools, |pools|) == |rows|
  {
    hide Labels, Grouped;
    PoolsTotal(pools, rows, labels, |pools|);
    assert labels[..|labels|] == labels;
    LabelsFacts(rows);
    GroupsCover(rows, labels);
    assert |multiset(rows)| == |rows|;
  }

  lemma SampleIsFair(pools: seq<seq<Row>>, rows: seq<Row>, labels: seq<int>, count: nat, s: seq<Row>)
    requires PoolsOf(pools, rows, labels) && Different(labels) && IsSample(pools, count, s)
    requires forall x :: x in Labels(rows) ==> x in labels
    ensures FairSample(rows, count, s)
  {
    hide PoolsOf, Labels, Balanced, Draws;
    var r: nat, p: nat :| p <= |pools| && s == Draws(pools, r, p);
    DrawsBalanced(pools, rows, labels, r, p);
    DrawsWithin(pools, rows, labels, r, p);
  }

  // ---------- What fairness means ----------

  /** If one label has two rows more than another, there was no more to take of the other. */
  lemma MaxMinFair(rows: seq<Row>, count: nat, s: seq<Row>, x: int, y: int)
    requires FairSample(rows, count, s) && x in Labels(rows) && y in Labels(rows)
    requires |Group(s, x)| >= |Group(s, y)| + 2
    ensures |Group(s, y)| == |Group(rows, y)|
  {
    hide Labels, Group;
    var r: nat :| Balanced(rows, s, r);
  }

  /** How many rows of s count if only c of each label do. */
  function Capped(s: seq<Row>, labels: seq<int>, c: nat): nat {
    if labels == [] then 0
    else Capped(s, labels[..|labels| - 1], c) + Min(|Group(s, labels[|labels| - 1])|, c)
  }

  lemma {:induction false} CappedAll(s: seq<Row>, labels: seq<int>, c: nat)
    ensures Capped(s, labels, c) <= |Grouped(s, labels)|
    ensures (forall x :: x in labels ==> |Group(s, x)| <= c) ==> Capped(s, labels, c) == |Grouped(s, labels)|
  {
    if labels != [] {
      CappedAll(s, labels[..|labels| - 1], c);
      assert labels == labels[..|labels| - 1] + [labels[|labels| - 1]];
    }
  }

  lemma {:induction false} CappedPointwise(s: seq<Row>, t: seq<Row>, labels: seq<int>, c: nat)
    requires forall x :: x in labels ==> Min(|Group(s, x)|, c) <= Min(|Group(t, x)|, c)
    ensures Capped(s, labels, c) <= Capped(t, labels, c)
  {
    if labels != [] {
      assert labels == labels[..|labels| - 1] + [labels[|labels| - 1]];
      CappedPointwise(s, t, labels[..|labels| - 1], c);
    }
  }

  lemma {:induction false} CappedOnes(s: seq<Row>, labels: seq<int>)
    ensures Capped(s, labels, 1) <= |labels|
    ensures Capped(s, labels, 1) == |labels| ==> forall x :: x in labels ==> Group(s, x) != []
  {
    if labels != [] {
      assert labels == labels[..|labels| - 1] + [labels[|labels| - 1]];
      CappedOnes(s, labels[..|labels| - 1]);
    }
  }

  lemma WithinGroups(rows: seq<Row>, s: seq<Row>)
    requires multiset(s) <= multiset(rows)
    ensures |Grouped(s, Labels(rows))| == |s|
    ensures forall x :: |Group(s, x)| <= |Group(rows, x)|
  {
    hide Labels, Group, Grouped;
    LabelsFacts(rows);
    forall r | r in s ensures r.route in Labels(rows) {
      assert r in multiset(s);
      assert r in rows;
    }
    GroupsCover(s, Labels(rows));
    assert |multiset(s)| == |s|;
    forall x ensures |Group(s, x)| <= |Group(rows, x)| {
      GroupWithin(rows, s, x);
    }
  }

  lemma GroupWithin(rows: seq<Row>, s: seq<Row>, x: int)
    requires multiset(s) <= multiset(rows)
    ensures |Group(s, x)| <= |Group(rows, x)|
  {
    hide Group;
    var a, b := multiset(Group(s, x)), multiset(Group(rows, x));
    forall z ensures a[z] <= b[z] {
      GroupCount(s, x, z);
      GroupCount(rows, x, z);
    }
    assert a <= b;
    assert b == a + (b - a);
    assert |Group(s, x)| == |a| && |Group(rows, x)| == |b|;
  }

  /** No sample of the same size serves the labels more evenly: whatever cap is put on what a label may
      count, the round-robin sample counts at least as many rows. */
  lemma MostBalanced(rows: seq<Row>, count: nat, s: seq<Row>, other: seq<Row>, c: nat)
    requires FairSample(rows, count, s) && multiset(other) <= multiset(rows) && |other| == count
    ensures Capped(other, Labels(rows), c) <= Capped(s, Labels(rows), c)
  {
    hide Labels, Group, Capped, Grouped;
    WithinGroups(rows, s);
    WithinGroups(rows, other);
    var r: nat :| Balanced(rows, s, r);
    if c <= r {
      CappedPointwise(other, s, Labels(rows), c);
    } else {
      CappedAll(s, Labels(rows), c);
      CappedAll(other, Labels(rows), c);
    }
  }

  /** With a row for every label to spend, every label is present. */
  lemma EveryLabelPresent(rows: seq<Row>, count: nat, s: seq<Row>)
    requires FairSample(rows, count, s) && count >= |Labels(rows)|
    ensures forall x :: x in Labels(rows) ==> Group(s, x) != []
  {
    hide Labels, Group, Capped, Grouped;
    WithinGroups(rows, s);
    var r: nat :| Balanced(rows, s, r);
    if r == 0 {
      CappedAll(s, Labels(rows), 1);
      CappedOnes(s, Labels(rows));
    } else {
      forall x | x in Labels(rows) ensures Group(s, x) != [] {
        LabelHasRows(rows, x);
      }
    }
  }

  lemma LabelHasRows(rows: seq<Row>, x: int)
    requires x in Labels(rows)
    ensures |Group(rows, x)| > 0
  {
    hide Labels;
    LabelsFacts(rows);
    GroupMembers(rows, x);
    var r :| r in rows && r.route == x;
    assert r in Group(rows, x);
  }
}
