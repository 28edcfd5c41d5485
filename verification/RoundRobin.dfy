/**
 Round-robin sampling: passes over the labels' pools, taking the last row of each pool that has one,
 until enough rows are taken.
 */
module RoundRobin {
  import opened DatasetRows

  function Min(a: nat, b: nat): nat {
    if a < b then a else b
  }

  /** What r complete passes and p steps of the next one take. */
  function Draws(pools: seq<seq<Row>>, r: nat, p: nat): seq<Row>
    requires p <= |pools|
    decreases r, p
  {
    if p > 0 then Draws(pools, r, p - 1) + Step(pools[p - 1], r)
    else if r > 0 then Draws(pools, r - 1, |pools|)
    else []
  }

  function Step(pool: seq<Row>, r: nat): seq<Row> {
    if r < |pool| then [pool[|pool| - 1 - r]] else []
  }

  /** How many rows of the k-th pool, of the given size, are then taken. */
  function Level(size: nat, r: nat, p: nat, k: nat): nat {
    Min(size, r + if k < p then 1 else 0)
  }

  function Taken(pools: seq<seq<Row>>, n: nat, r: nat, p: nat): nat
    requires n <= |pools|
  {
    if n == 0 then 0 else Taken(pools, n - 1, r, p) + Level(|pools[n - 1]|, r, p, n - 1)
  }

  function Total(pools: seq<seq<Row>>, n: nat): nat
    requires n <= |pools|
  {
    if n == 0 then 0 else Total(pools, n - 1) + |pools[n - 1]|
  }

  function Rest(pool: seq<Row>, taken: nat): seq<Row> {
    pool[..|pool| - Min(|pool|, taken)]
  }

  // ---------- Counting ----------

  lemma {:induction false} TakenStep(pools: seq<seq<Row>>, n: nat, r: nat, p: nat)
    requires n <= |pools| && p < |pools|
    ensures Taken(pools, n, r, p + 1) == Taken(pools, n, r, p) + if p < n then |Step(pools[p], r)| else 0
  {
    if n > 0 {
      TakenStep(pools, n - 1, r, p);
    }
  }

  lemma {:induction false} TakenPass(pools: seq<seq<Row>>, n: nat, r: nat)
    requires n <= |pools|
    ensures Taken(pools, n, r + 1, 0) == Taken(pools, n, r, |pools|)
    ensures Taken(pools, n, 0, 0) == 0
  {
    if n > 0 {
      TakenPass(pools, n - 1, r);
    }
  }

  lemma {:induction false} DrawsLength(pools: seq<seq<Row>>, r: nat, p: nat)
    requires p <= |pools|
    ensures |Draws(pools, r, p)| == Taken(pools, |pools|, r, p)
    decreases r, p
  {
    if p > 0 {
      DrawsLength(pools, r, p - 1);
      TakenStep(pools, |pools|, r, p - 1);
    } else if r > 0 {
      DrawsLength(pools, r - 1, |pools|);
      TakenPass(pools, |pools|, r - 1);
    } else {
      TakenPass(pools, |pools|, 0);
    }
  }

  /** A pass takes something unless nothing is left anywhere. */
  lemma {:induction false} PassProgress(pools: seq<seq<Row>>, n: nat, r: nat)
    requires n <= |pools|
    ensures Taken(pools, n, r, 0) <= Taken(pools, n, r, |pools|) <= Total(pools, n)
    ensures Taken(pools, n, r, 0) == Taken(pools, n, r, |pools|) ==> Taken(pools, n, r, 0) == Total(pools, n)
  {
    if n > 0 {
      PassProgress(pools, n - 1, r);
    }
  }

  // ---------- The loop ----------

  ghost predicate IsSample(pools: seq<seq<Row>>, count: nat, sampled: seq<Row>) {
    |sampled| == count && exists r: nat, p: nat :: p <= |pools| && sampled == Draws(pools, r, p)
  }

  /** The pools after r passes and p steps. */
  ghost predicate Remaining(groups: seq<seq<Row>>, pools: seq<seq<Row>>, r: nat, p: nat) {
    |groups| == |pools| && forall k :: 0 <= k < |pools| ==> groups[k] == Rest(pools[k], r + if k < p then 1 else 0)
  }

  lemma PopOne(groups: seq<seq<Row>>, pools: seq<seq<Row>>, r: nat, p: nat)
    requires Remaining(groups, pools, r, p) && p < |pools|
    ensures groups[p] != [] ==>
              && Step(pools[p], r) == [groups[p][|groups[p]| - 1]]
              && Remaining(groups[p := groups[p][..|groups[p]| - 1]], pools, r, p + 1)
    ensures groups[p] == [] ==> Step(pools[p], r) == [] && Remaining(groups, pools, r, p + 1)
  {
  }

  lemma NextPass(groups: seq<seq<Row>>, pools: seq<seq<Row>>, r: nat)
    requires Remaining(groups, pools, r, |pools|)
    ensures Remaining(groups, pools, r + 1, 0)
  {
  }

  lemma NothingDrawn(pools: seq<seq<Row>>)
    ensures Remaining(pools, pools, 0, 0)
  {
  }

  method DrawRoundRobin(pools: seq<seq<Row>>, count: nat) returns (sampled: seq<Row>)
    requires count <= Total(pools, |pools|)
    ensures IsSample(pools, count, sampled)
  {
    hide Remaining, Step, Taken, Total;
    var groups := pools;
    ghost var r: nat, p: nat := 0, 0;
    sampled := [];
    NothingDrawn(pools);
    while |sampled| < count
      invariant p <= |pools| && sampled == Draws(pools, r, p) && Remaining(groups, pools, r, p)
      invariant |sampled| <= count && |groups| == |pools|
      invariant |sampled| < count ==> p == 0
      decreases count - |sampled|
    {
      ghost var start := |sampled|;
      for k := 0 to |groups|
        invariant p <= k && sampled == Draws(pools, r, p) && Remaining(groups, pools, r, p)
        invariant start <= |sampled| <= count && |groups| == |pools|
        invariant |sampled| < count ==> p == k
      {
        if |sampled| < count {
          PopOne(groups, pools, r, p);
          p := p + 1;
        }
        if groups[k] != [] && |sampled| < count {
          sampled := sampled + [groups[k][|groups[k]| - 1]];
          groups := groups[k := groups[k][..|groups[k]| - 1]];
        }
      }
      if |sampled| < count {
        DrawsLength(pools, r, 0);
        DrawsLength(pools, r, |pools|);
        PassProgress(pools, |pools|, r);
        NextPass(groups, pools, r);
        r, p := r + 1, 0;
      } else {
        assert start < count;
      }
    }
  }

  // ---------- What a sample is ----------

  lemma {:induction false} LaterDraws(pools: seq<seq<Row>>, r: nat, p: nat, q: nat, t: nat)
    requires p <= |pools| && t <= |pools| && (r < q || (r == q && p <= t))
    ensures Draws(pools, r, p) <= Draws(pools, q, t)
    decreases q, t
  {
    if r == q && p == t {
    } else if t > 0 {
      LaterDraws(pools, r, p, q, t - 1);
    } else {
      LaterDraws(pools, r, p, q - 1, |pools|);
    }
  }

  /** The pools and the number of rows determine the sample, row by row. */
  lemma SampleUnique(pools: seq<seq<Row>>, count: nat, s: seq<Row>, t: seq<Row>)
    requires IsSample(pools, count, s) && IsSample(pools, count, t)
    ensures s == t
  {
    var r: nat, p: nat :| p <= |pools| && s == Draws(pools, r, p);
    var q: nat, u: nat :| u <= |pools| && t == Draws(pools, q, u);
    if r < q || (r == q && p <= u) {
      LaterDraws(pools, r, p, q, u);
    } else {
      LaterDraws(pools, q, u, r, p);
    }
  }

  /** The last n rows, last first. */
  function TopDown(pool: seq<Row>, n: nat): seq<Row>
    requires n <= |pool|
  {
    if n == 0 then [] else TopDown(pool, n - 1) + [pool[|pool| - n]]
  }

  lemma {:induction false} TopDownRows(pool: seq<Row>, n: nat)
    requires n <= |pool|
    ensures |TopDown(pool, n)| == n && multiset(TopDown(pool, n)) + multiset(pool[..|pool| - n]) == multiset(pool)
  {
    if n == 0 {
      assert pool[..|pool|] == pool;
    } else {
      TopDownRows(pool, n - 1);
      assert pool[..|pool| - n + 1] == pool[..|pool| - n] + [pool[|pool| - n]];
    }
  }

  /** Pool k holds the rows of label k, and the labels differ. */
  ghost predicate Labelled(pools: seq<seq<Row>>, labels: seq<int>)
    requires |pools| == |labels|
  {
    && (forall j, k :: 0 <= j < k < |labels| ==> labels[j] != labels[k])
    && forall k, r :: 0 <= k < |pools| && r in pools[k] ==> r.route == labels[k]
  }

  lemma StepOfLabel(pools: seq<seq<Row>>, labels: seq<int>, r: nat, p: nat, k: nat)
    requires |pools| == |labels| && Labelled(pools, labels) && p < |pools| && k < |pools|
    ensures Group(Step(pools[p], r), labels[k]) == if p == k then Step(pools[p], r) else []
  {
    if r < |pools[p]| {
      assert pools[p][|pools[p]| - 1 - r] in pools[p];
    }
    assert forall x :: x in Step(pools[p], r) ==> x.route == labels[p];
    GroupUniform(Step(pools[p], r), labels[p], labels[k]);
  }

  /** Of each label a sample holds the end of its pool, as far as the passes went. */
  lemma {:induction false} DrawsOfLabel(pools: seq<seq<Row>>, labels: seq<int>, r: nat, p: nat, k: nat)
    requires p <= |pools| == |labels| && k < |pools| && Labelled(pools, labels)
    ensures Group(Draws(pools, r, p), labels[k]) == TopDown(pools[k], Level(|pools[k]|, r, p, k))
    decreases r, p
  {
    hide Group, Labelled;
    if p > 0 {
      DrawsOfLabel(pools, labels, r, p - 1, k);
      GroupAppend(Draws(pools, r, p - 1), Step(pools[p - 1], r), labels[k]);
      StepOfLabel(pools, labels, r, p - 1, k);
      LevelStep(pools[k], r, p - 1, k);
    } else if r > 0 {
      DrawsOfLabel(pools, labels, r - 1, |pools|, k);
    } else {
      EmptyGroup(labels[k]);
    }
  }

  lemma LevelStep(pool: seq<Row>, r: nat, p: nat, k: nat)
    ensures TopDown(pool, Level(|pool|, r, p + 1, k)) ==
            TopDown(pool, Level(|pool|, r, p, k)) + if p == k then Step(pool, r) else []
  {
    var n := Level(|pool|, r, p, k);
    if p == k && r < |pool| {
      assert n == r && Level(|pool|, r, p + 1, k) == r + 1;
      assert TopDown(pool, r + 1) == TopDown(pool, r) + [pool[|pool| - (r + 1)]];
    } else {
      assert Level(|pool|, r, p + 1, k) == n;
    }
  }

  lemma EmptyGroup(x: int)
    ensures Group([], x) == []
  {
  }

  lemma {:induction false} DrawsLabels(pools: seq<seq<Row>>, labels: seq<int>, r: nat, p: nat, x: Row)
    requires p <= |pools| == |labels| && Labelled(pools, labels) && x in Draws(pools, r, p)
    ensures x.route in labels
    decreases r, p
  {
    if p > 0 {
      if x in Step(pools[p - 1], r) {
        assert x in pools[p - 1] && x.route == labels[p - 1];
      } else {
        DrawsLabels(pools, labels, r, p - 1, x);
      }
    } else {
      DrawsLabels(pools, labels, r - 1, |pools|, x);
    }
  }
}
