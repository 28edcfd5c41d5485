/**
 The two scripts' stratified validation carve, one of which claims the logic of the other.
 */
module CarveValidation {
  import opened DatasetRows
  import opened Options

  function Cut(pool: seq<Row>, n: nat): nat {
    if n < |pool| then n else |pool|
  }

  function Pool(rows: seq<Row>, k: nat, shuffle: (nat, seq<Row>) -> seq<Row>): seq<Row>
    requires k < |Labels(rows)|
  {
    shuffle(k, Group(rows, Labels(rows)[k]))
  }

  datatype Split = Split(keep: seq<Row>, val: seq<Row>)

  /** The first `perRoute` rows of each of the first `n` shuffled pools, and the rest of them. */
  function Taken(rows: seq<Row>, n: nat, perRoute: nat, shuffle: (nat, seq<Row>) -> seq<Row>): Split
    requires n <= |Labels(rows)|
  {
    if n == 0 then Split([], [])
    else
      var before, pool := Taken(rows, n - 1, perRoute, shuffle), Pool(rows, n - 1, shuffle);
      Split(before.keep + pool[Cut(pool, perRoute)..], before.val + pool[..Cut(pool, perRoute)])
  }

  function RemoveFirst(s: seq<Row>, r: Row): seq<Row> {
    if s == [] then [] else if s[0] == r then s[1..] else [s[0]] + RemoveFirst(s[1..], r)
  }

  /** Moves the given rows one by one from what is kept to the validation rows. */
  function Move(s: Split, moved: seq<Row>): Split {
    if moved == [] then s
    else
      var t, r := Move(s, moved[..|moved| - 1]), moved[|moved| - 1];
      Split(RemoveFirst(t.keep, r), t.val + [r])
  }

  /** train_combined_routing.py; None is the division by zero on no rows. */
  function CarveCombined(rows: seq<Row>, size: nat, shuffle: (nat, seq<Row>) -> seq<Row>): Option<Split> {
    var routes := |Labels(rows)|;
    if routes == 0 then None else Some(Taken(rows, routes, size / routes, shuffle))
  }

  /** train_phone_routing.py: the remainder is drawn at random from what was kept. */
  function CarvePhone(rows: seq<Row>, size: nat, shuffle: (nat, seq<Row>) -> seq<Row>): Option<Split> {
    var routes := |Labels(rows)|;
    if routes == 0 then None
    else Some(Draw(Taken(rows, routes, size / routes, shuffle), size % routes, n => shuffle(routes, n)))
  }

  function Draw(s: Split, extra: nat, shuffle: seq<Row> -> seq<Row>): Split {
    if extra == 0 then s else Move(s, shuffle(s.keep)[..Cut(shuffle(s.keep), extra)])
  }

  // ---------- The scripts' loops ----------

  method CarveRoutes(rows: seq<Row>, perRoute: nat, shuffle: (nat, seq<Row>) -> seq<Row>)
    returns (keep: seq<Row>, val: seq<Row>)
    ensures Split(keep, val) == Taken(rows, |Labels(rows)|, perRoute, shuffle)
  {
    keep, val := [], [];
    var groups := GroupByLabel(rows);
    var routes := Labels(rows);
    assert forall x :: x in routes ==> x in groups;
    for k := 0 to |routes|
      invariant Split(keep, val) == Taken(rows, k, perRoute, shuffle)
    {
      assert routes[k] in routes;
      var pool := shuffle(k, groups[routes[k]]);
      var take := if perRoute < |pool| then perRoute else |pool|;
      val := val + pool[..take];
      keep := keep + pool[take..];
    }
  }

  method CarveCombinedValidation(rows: seq<Row>, size: nat, shuffle: (nat, seq<Row>) -> seq<Row>)
    returns (r: Option<Split>)
    ensures r == CarveCombined(rows, size, shuffle)
  {
    var routes := |Labels(rows)|;
    if routes == 0 {
      return None;
    }
    var keep, val := CarveRoutes(rows, size / routes, shuffle);
    return Some(Split(keep, val));
  }

  method MoveRows(keep: seq<Row>, val: seq<Row>, moved: seq<Row>) returns (k: seq<Row>, v: seq<Row>)
    ensures Split(k, v) == Move(Split(keep, val), moved)
  {
    k, v := keep, val;
    for i := 0 to |moved|
      invariant Split(k, v) == Move(Split(keep, val), moved[..i])
    {
      assert moved[..i + 1][..i] == moved[..i];
      k := RemoveFirst(k, moved[i]);
      v := v + [moved[i]];
    }
    assert moved[..|moved|] == moved;
  }

  method CarvePhoneValidation(rows: seq<Row>, size: nat, shuffle: (nat, seq<Row>) -> seq<Row>)
    returns (r: Option<Split>)
    ensures r == CarvePhone(rows, size, shuffle)
  {
    hide Taken, Move, Labels;
    var routes := |Labels(rows)|;
    if routes == 0 {
      return None;
    }
    var perRoute := size / routes;
    Division(size, routes);
    var extra := size - perRoute * routes;
    var keep, val := CarveRoutes(rows, perRoute, shuffle);
    if extra > 0 {
      var leftover := shuffle(routes, keep);
      keep, val := MoveRows(keep, val, leftover[..if extra < |leftover| then extra else |leftover|]);
    }
    return Some(Split(keep, val));
  }

  lemma Division(size: nat, routes: nat)
    requires routes > 0
    ensures size == (size / routes) * routes + size % routes && size % routes < routes
  {
  }

  // ---------- Conservation ----------

  ghost predicate Divides(s: Split, all: multiset<Row>) {
    multiset(s.keep) + multiset(s.val) == all
  }

  lemma AddPool(before: Split, all: multiset<Row>, group: seq<Row>, pool: seq<Row>, cut: nat)
    requires Divides(before, all) && multiset(pool) == multiset(group) && cut <= |pool|
    ensures Divides(Split(before.keep + pool[cut..], before.val + pool[..cut]), all + multiset(group))
  {
    assert pool == pool[..cut] + pool[cut..];
  }

  lemma NothingTaken()
    ensures Divides(Split([], []), multiset{})
  {
  }

  lemma {:induction false} TakenConserves(rows: seq<Row>, n: nat, perRoute: nat, shuffle: (nat, seq<Row>) -> seq<Row>)
    requires n <= |Labels(rows)| && Permutes(shuffle)
    ensures Divides(Taken(rows, n, perRoute, shuffle), Grouped(rows, Labels(rows)[..n]))
  {
    hide Labels, Group, Divides, Permutes;
    if n == 0 {
      NothingTaken();
      assert Labels(rows)[..0] == [];
    } else {
      TakenConserves(rows, n - 1, perRoute, shuffle);
      var labels, pool := Labels(rows), Pool(rows, n - 1, shuffle);
      assert labels[..n][..n - 1] == labels[..n - 1];
      ShuffleKeeps(shuffle, n - 1, Group(rows, labels[n - 1]));
      AddPool(Taken(rows, n - 1, perRoute, shuffle), Grouped(rows, labels[..n - 1]), Group(rows, labels[n - 1]), pool,
              Cut(pool, perRoute));
    }
  }

  lemma AllTaken(rows: seq<Row>, perRoute: nat, shuffle: (nat, seq<Row>) -> seq<Row>)
    requires Permutes(shuffle)
    ensures Divides(Taken(rows, |Labels(rows)|, perRoute, shuffle), multiset(rows))
  {
    hide Labels, Taken, Divides, Permutes;
    TakenConserves(rows, |Labels(rows)|, perRoute, shuffle);
    assert Labels(rows)[..|Labels(rows)|] == Labels(rows);
    GroupingPartitions(rows);
  }

  lemma {:induction false} RemoveFirstCount(s: seq<Row>, r: Row)
    requires r in s
    ensures multiset(RemoveFirst(s, r)) + multiset{r} == multiset(s) && |RemoveFirst(s, r)| == |s| - 1
  {
    assert s == [s[0]] + s[1..];
    if s[0] != r {
      RemoveFirstCount(s[1..], r);
    }
  }

  /** Every removal finds its row: the removed rows are part of what is kept. */
  lemma {:induction false} MoveConserves(s: Split, moved: seq<Row>)
    requires multiset(moved) <= multiset(s.keep)
    ensures var t := Move(s, moved);
            multiset(t.keep) + multiset(moved) == multiset(s.keep) && t.val == s.val + moved
  {
    if moved == [] {
      assert s.val + moved == s.val;
    } else {
      var u, r := moved[..|moved| - 1], moved[|moved| - 1];
      assert moved == u + [r];
      assert multiset(moved) == multiset(u) + multiset{r};
      MoveConserves(s, u);
      var t := Move(s, u);
      assert multiset(s.keep)[r] >= multiset(u)[r] + 1;
      assert r in multiset(t.keep);
      RemoveFirstCount(t.keep, r);
      assert s.val + u + [r] == s.val + moved;
    }
  }

  /** What drawing does: it moves as many rows as asked for, or all there are. */
  lemma DrawMoves(s: Split, extra: nat, shuffle: seq<Row> -> seq<Row>, all: multiset<Row>)
    requires multiset(shuffle(s.keep)) == multiset(s.keep) && Divides(s, all)
    ensures Divides(Draw(s, extra, shuffle), all)
    ensures |Draw(s, extra, shuffle).val| == |s.val| + if extra < |s.keep| then extra else |s.keep|
  {
    var leftover := shuffle(s.keep);
    assert |leftover| == |multiset(leftover)| == |s.keep|;
    if extra != 0 {
      var cut := Cut(leftover, extra);
      assert leftover == leftover[..cut] + leftover[cut..];
      MoveConserves(s, leftover[..cut]);
    }
  }

  lemma HaveLabels(rows: seq<Row>)
    ensures |Labels(rows)| == 0 <==> rows == []
  {
    LabelsFacts(rows);
    if rows != [] {
      assert rows[0].route in Labels(rows);
    }
  }

  /** Both carves only divide the rows: nothing is lost, invented or duplicated. */
  lemma CarvesConserve(rows: seq<Row>, size: nat, shuffle: (nat, seq<Row>) -> seq<Row>)
    requires Permutes(shuffle)
    ensures rows == [] ==> CarvePhone(rows, size, shuffle).None? && CarveCombined(rows, size, shuffle).None?
    ensures rows != [] ==>
              && CarvePhone(rows, size, shuffle).Some? && Divides(CarvePhone(rows, size, shuffle).value, multiset(rows))
              && CarveCombined(rows, size, shuffle).Some?
              && Divides(CarveCombined(rows, size, shuffle).value, multiset(rows))
  {
    hide Labels, Taken, Divides, Permutes, Draw;
    HaveLabels(rows);
    if rows != [] {
      var routes := |Labels(rows)|;
      AllTaken(rows, size / routes, shuffle);
      var s := Taken(rows, routes, size / routes, shuffle);
      ShuffleKeeps(shuffle, routes, s.keep);
      DrawMoves(s, size % routes, n => shuffle(routes, n), multiset(rows));
    }
  }

  // ---------- Sizes ----------

  ghost predicate EnoughPerRoute(rows: seq<Row>, n: nat, perRoute: nat)
    requires n <= |Labels(rows)|
  {
    forall k :: 0 <= k < n ==> |Group(rows, Labels(rows)[k])| >= perRoute
  }

  lemma {:induction false} TakenSize(rows: seq<Row>, n: nat, perRoute: nat, shuffle: (nat, seq<Row>) -> seq<Row>)
    requires n <= |Labels(rows)| && Permutes(shuffle)
    ensures |Taken(rows, n, perRoute, shuffle).val| <= n * perRoute
    ensures |Taken(rows, n, perRoute, shuffle).val| == n * perRoute <==> EnoughPerRoute(rows, n, perRoute)
  {
    hide Labels, Group, Permutes;
    if n > 0 {
      TakenSize(rows, n - 1, perRoute, shuffle);
      ShuffleKeeps(shuffle, n - 1, Group(rows, Labels(rows)[n - 1]));
      Times(n, perRoute);
    }
  }

  /** The equal shares: every label of the routes done has its share in the validation rows, or all it has. */
  lemma {:induction false} TakenShares(rows: seq<Row>, n: nat, perRoute: nat, shuffle: (nat, seq<Row>) -> seq<Row>,
                                       k: nat)
    requires n <= |Labels(rows)| && k < |Labels(rows)| && Permutes(shuffle)
    ensures |Group(Taken(rows, n, perRoute, shuffle).val, Labels(rows)[k])| ==
              if k >= n then 0
              else if perRoute < |Group(rows, Labels(rows)[k])| then perRoute else |Group(rows, Labels(rows)[k])|
  {
    hide Labels, Permutes, Pool, Group;
    var x := Labels(rows)[k];
    if n == 0 {
      GroupUniform([], x, x);
    } else {
      TakenShares(rows, n - 1, perRoute, shuffle, k);
      var pool, route := Pool(rows, n - 1, shuffle), Labels(rows)[n - 1];
      var cut := Cut(pool, perRoute);
      PoolRows(rows, n - 1, shuffle);
      LabelsFacts(rows);
      GroupAppend(Taken(rows, n - 1, perRoute, shuffle).val, pool[..cut], x);
      GroupUniform(pool[..cut], route, x);
    }
  }

  lemma PoolRows(rows: seq<Row>, k: nat, shuffle: (nat, seq<Row>) -> seq<Row>)
    requires k < |Labels(rows)| && Permutes(shuffle)
    ensures |Pool(rows, k, shuffle)| == |Group(rows, Labels(rows)[k])|
    ensures forall r :: r in Pool(rows, k, shuffle) ==> r.route == Labels(rows)[k]
  {
    hide Labels, Permutes, Group;
    ShuffleKeeps(shuffle, k, Group(rows, Labels(rows)[k]));
    GroupMembers(rows, Labels(rows)[k]);
  }

  /** The combined carve is stratified: every route gives the same number of rows, or all it has. */
  lemma CombinedCarveIsStratified(rows: seq<Row>, size: nat, shuffle: (nat, seq<Row>) -> seq<Row>, x: int)
    requires Permutes(shuffle) && x in Labels(rows)
    ensures CarveCombined(rows, size, shuffle).Some? && |Labels(rows)| > 0
    ensures var share, n := size / |Labels(rows)|, |Group(rows, x)|;
            |Group(CarveCombined(rows, size, shuffle).value.val, x)| == if share < n then share else n
  {
    hide Labels, Permutes, Group, Taken;
    var k :| 0 <= k < |Labels(rows)| && Labels(rows)[k] == x;
    TakenShares(rows, |Labels(rows)|, size / |Labels(rows)|, shuffle, k);
  }

  /** So is the phone carve before the remainder, which only adds to it. */
  lemma PhoneCarveExtendsShares(rows: seq<Row>, size: nat, shuffle: (nat, seq<Row>) -> seq<Row>)
    requires Permutes(shuffle) && rows != []
    ensures CarveCombined(rows, size, shuffle).Some? && CarvePhone(rows, size, shuffle).Some?
    ensures CarveCombined(rows, size, shuffle).value.val <= CarvePhone(rows, size, shuffle).value.val
  {
    hide Labels, Taken, Permutes, Move;
    HaveLabels(rows);
    var routes := |Labels(rows)|;
    var s := Taken(rows, routes, size / routes, shuffle);
    ShuffleKeeps(shuffle, routes, s.keep);
    var leftover := shuffle(routes, s.keep);
    var cut := Cut(leftover, size % routes);
    assert leftover == leftover[..cut] + leftover[cut..];
    MoveConserves(s, leftover[..cut]);
  }

  lemma Times(n: nat, m: nat)
    requires n > 0
    ensures n * m == (n - 1) * m + m
  {
  }

  lemma Sizes(s: Split, rows: seq<Row>)
    requires Divides(s, multiset(rows))
    ensures |s.keep| + |s.val| == |rows|
  {
    assert |multiset(s.keep) + multiset(s.val)| == |multiset(rows)|;
  }

  /** The phone script carves out exactly the requested number of rows if and only if every route has its
      equal share and there are that many rows at all; it never carves out more. */
  lemma PhoneCarveSize(rows: seq<Row>, size: nat, shuffle: (nat, seq<Row>) -> seq<Row>)
    requires Permutes(shuffle) && rows != []
    ensures |Labels(rows)| > 0 && CarvePhone(rows, size, shuffle).Some?
    ensures |CarvePhone(rows, size, shuffle).value.val| <= size
    ensures |CarvePhone(rows, size, shuffle).value.val| == size <==>
              EnoughPerRoute(rows, |Labels(rows)|, size / |Labels(rows)|) && |rows| >= size
  {
    hide Labels, Taken, Divides, Permutes, Draw, EnoughPerRoute;
    HaveLabels(rows);
    var routes := |Labels(rows)|;
    Division(size, routes);
    var s := Taken(rows, routes, size / routes, shuffle);
    Product(size / routes, routes);
    TakenSize(rows, routes, size / routes, shuffle);
    AllTaken(rows, size / routes, shuffle);
    Sizes(s, rows);
    ShuffleKeeps(shuffle, routes, s.keep);
    DrawMoves(s, size % routes, n => shuffle(routes, n), multiset(rows));
  }

  lemma Product(a: nat, b: nat)
    ensures a * b == b * a
  {
  }

  /** The combined script is short of the requested number by exactly the remainder of the division by the
      number of routes if and only if every route has its share. */
  lemma CombinedCarveSize(rows: seq<Row>, size: nat, shuffle: (nat, seq<Row>) -> seq<Row>)
    requires Permutes(shuffle) && rows != []
    ensures |Labels(rows)| > 0 && CarveCombined(rows, size, shuffle).Some?
    ensures |CarveCombined(rows, size, shuffle).value.val| == size - size % |Labels(rows)| <==>
              EnoughPerRoute(rows, |Labels(rows)|, size / |Labels(rows)|)
  {
    hide Labels, Taken, EnoughPerRoute;
    HaveLabels(rows);
    var routes := |Labels(rows)|;
    Division(size, routes);
    Product(size / routes, routes);
    TakenSize(rows, routes, size / routes, shuffle);
  }

  /** No route has more rows than its equal share. */
  ghost predicate SharesExhaust(rows: seq<Row>, n: nat, perRoute: nat)
    requires n <= |Labels(rows)|
  {
    forall k :: 0 <= k < n ==> |Group(rows, Labels(rows)[k])| <= perRoute
  }

  lemma {:induction false} NothingLeftExactly(rows: seq<Row>, n: nat, perRoute: nat,
                                              shuffle: (nat, seq<Row>) -> seq<Row>)
    requires n <= |Labels(rows)| && Permutes(shuffle)
    ensures Taken(rows, n, perRoute, shuffle).keep == [] <==> SharesExhaust(rows, n, perRoute)
  {
    hide Labels, Group, Permutes;
    if n > 0 {
      NothingLeftExactly(rows, n - 1, perRoute, shuffle);
      ShuffleKeeps(shuffle, n - 1, Group(rows, Labels(rows)[n - 1]));
    }
  }

  /** "Same logic" holds, for the same shuffles, if and only if the number of routes divides the size or no route
      has more rows than its equal share. */
  lemma SameLogicExactly(rows: seq<Row>, size: nat, shuffle: (nat, seq<Row>) -> seq<Row>)
    requires Permutes(shuffle) && rows != []
    ensures |Labels(rows)| > 0
    ensures CarveCombined(rows, size, shuffle) == CarvePhone(rows, size, shuffle) <==>
              || size % |Labels(rows)| == 0
              || SharesExhaust(rows, |Labels(rows)|, size / |Labels(rows)|)
  {
    hide Labels, Taken, Divides, Permutes, Move, SharesExhaust;
    HaveLabels(rows);
    var routes := |Labels(rows)|;
    var s := Taken(rows, routes, size / routes, shuffle);
    NothingLeftExactly(rows, routes, size / routes, shuffle);
    AllTaken(rows, size / routes, shuffle);
    ShuffleKeeps(shuffle, routes, s.keep);
    DrawMoves(s, size % routes, n => shuffle(routes, n), multiset(rows));
    if s.keep == [] {
      assert shuffle(routes, s.keep)[..0] == [];
      MoveNothing(s);
    }
  }

  /** Two routes with a row each and one row to carve: the scripts differ, whatever the shuffles. */
  lemma ScriptsDiffer(shuffle: (nat, seq<Row>) -> seq<Row>)
    requires Permutes(shuffle)
    ensures var rows := [Row(0, 0, "a"), Row(1, 1, "b")];
            CarveCombined(rows, 1, shuffle) != CarvePhone(rows, 1, shuffle)
  {
    hide Permutes, CarveCombined, CarvePhone;
    var rows := [Row(0, 0, "a"), Row(1, 1, "b")];
    assert rows[..1] == [Row(0, 0, "a")] && rows[..1][..0] == [];
    assert Labels(rows[..1]) == [0];
    assert [0][1..] == [] && InsertLabel(1, [0]) == [0, 1];
    assert Labels(rows) == [0, 1];
    assert |Group(rows, Labels(rows)[0])| == 1;
    SameLogicExactly(rows, 1, shuffle);
  }

  lemma MoveNothing(s: Split)
    ensures Move(s, []) == s
  {
  }
}
