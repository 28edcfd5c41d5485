/**
 Rows, their labels, and grouping by label. Labels are compared only by equality and order.
 */
module DatasetRows {
  import opened Options

  datatype Row = Row(id: int, route: int, state: string)

  /** Any outcome of shuffling: the n-th shuffle of a script permutes what it is given. */
  ghost predicate Permutes(shuffle: (nat, seq<Row>) -> seq<Row>) {
    forall n: nat, s: seq<Row> :: multiset(shuffle(n, s)) == multiset(s)
  }

  lemma ShuffleKeeps(shuffle: (nat, seq<Row>) -> seq<Row>, n: nat, s: seq<Row>)
    requires Permutes(shuffle)
    ensures multiset(shuffle(n, s)) == multiset(s) && |shuffle(n, s)| == |s|
    ensures forall r :: r in shuffle(n, s) <==> r in s
  {
    var t := shuffle(n, s);
    assert multiset(t) == multiset(s);
    assert |t| == |multiset(t)| && |s| == |multiset(s)|;
    forall r ensures r in t <==> r in s {
      assert r in multiset(t) <==> r in multiset(s);
    }
  }

  /** The rows with the given label, in order. */
  function Group(rows: seq<Row>, route: int): seq<Row> {
    if rows == [] then []
    else Group(rows[..|rows| - 1], route) + if rows[|rows| - 1].route == route then [rows[|rows| - 1]] else []
  }

  function InsertLabel(route: int, labels: seq<int>): seq<int> {
    if labels == [] || route < labels[0] then [route] + labels
    else if route == labels[0] then labels
    else [labels[0]] + InsertLabel(route, labels[1..])
  }

  /** The distinct labels, sorted. */
  function Labels(rows: seq<Row>): seq<int> {
    if rows == [] then [] else InsertLabel(rows[|rows| - 1].route, Labels(rows[..|rows| - 1]))
  }

  ghost predicate Ascending(s: seq<int>) {
    forall i, j :: 0 <= i < j < |s| ==> s[i] < s[j]
  }

  lemma {:induction false} InsertLabelFacts(route: int, labels: seq<int>)
    requires Ascending(labels)
    ensures Ascending(InsertLabel(route, labels))
    ensures forall x :: x in InsertLabel(route, labels) <==> x in labels || x == route
  {
    if labels != [] && route > labels[0] {
      InsertLabelFacts(route, labels[1..]);
      var rest := InsertLabel(route, labels[1..]);
      assert forall x :: x in rest ==> labels[0] < x;
      assert labels == [labels[0]] + labels[1..];
    }
  }

  lemma {:induction false} LabelsFacts(rows: seq<Row>)
    ensures Ascending(Labels(rows))
    ensures forall r :: r in rows ==> r.route in Labels(rows)
    ensures forall x :: x in Labels(rows) ==> exists r :: r in rows && r.route == x
  {
    if rows != [] {
      var u, last := rows[..|rows| - 1], rows[|rows| - 1];
      assert rows == u + [last];
      LabelsFacts(u);
      InsertLabelFacts(last.route, Labels(u));
      forall x | x in Labels(rows) ensures exists r :: r in rows && r.route == x {
        if x == last.route {
          assert last in rows;
        } else {
          var r :| r in u && r.route == x;
          assert r in rows;
        }
      }
    }
  }

  lemma {:induction false} GroupMembers(rows: seq<Row>, route: int)
    ensures forall r :: r in Group(rows, route) <==> r in rows && r.route == route
    ensures |Group(rows, route)| <= |rows|
  {
    if rows != [] {
      GroupMembers(rows[..|rows| - 1], route);
      assert rows == rows[..|rows| - 1] + [rows[|rows| - 1]];
    }
  }

  /** All rows of the listed groups, one group after the other. */
  function Grouped(rows: seq<Row>, labels: seq<int>): multiset<Row> {
    if labels == [] then multiset{}
    else Grouped(rows, labels[..|labels| - 1]) + multiset(Group(rows, labels[|labels| - 1]))
  }

  lemma {:induction false} GroupCount(rows: seq<Row>, route: int, r: Row)
    ensures multiset(Group(rows, route))[r] == if r.route == route then multiset(rows)[r] else 0
  {
    if rows != [] {
      GroupCount(rows[..|rows| - 1], route, r);
      assert rows == rows[..|rows| - 1] + [rows[|rows| - 1]];
    }
  }

  ghost predicate Different(s: seq<int>) {
    forall i, j :: 0 <= i < j < |s| ==> s[i] != s[j]
  }

  lemma {:induction false} GroupedCount(rows: seq<Row>, labels: seq<int>, r: Row)
    requires Different(labels)
    ensures Grouped(rows, labels)[r] == if r.route in labels then multiset(rows)[r] else 0
  {
    if labels != [] {
      var u, last := labels[..|labels| - 1], labels[|labels| - 1];
      assert labels == u + [last];
      GroupedCount(rows, u, r);
      GroupCount(rows, last, r);
      assert last !in u;
    }
  }

  /** Grouping by label, in whatever order of the labels, loses and duplicates nothing. */
  lemma GroupsCover(rows: seq<Row>, labels: seq<int>)
    requires Different(labels) && forall r :: r in rows ==> r.route in labels
    ensures Grouped(rows, labels) == multiset(rows)
  {
    forall r: Row ensures Grouped(rows, labels)[r] == multiset(rows)[r] {
      GroupedCount(rows, labels, r);
      if r in multiset(rows) {
        assert r in rows;
      }
    }
  }

  lemma GroupingPartitions(rows: seq<Row>)
    ensures Grouped(rows, Labels(rows)) == multiset(rows)
  {
    LabelsFacts(rows);
    GroupsCover(rows, Labels(rows));
  }

  /** The scripts' grouping loop: one dictionary entry for every label that occurs. */
  method GroupByLabel(rows: seq<Row>) returns (groups: map<int, seq<Row>>)
    ensures forall x :: x in groups <==> x in Labels(rows)
    ensures forall x :: x in groups ==> groups[x] == Group(rows, x)
  {
    groups := map[];
    for i := 0 to |rows|
      invariant forall x :: x in groups <==> x in Labels(rows[..i])
      invariant forall x :: x in groups ==> groups[x] == Group(rows[..i], x)
    {
      var route := rows[i].route;
      AddRow(rows, i);
      groups := groups[route := (if route in groups then groups[route] else []) + [rows[i]]];
    }
    assert rows[..|rows|] == rows;
  }

  lemma AddRow(rows: seq<Row>, i: nat)
    requires i < |rows|
    ensures forall x :: Group(rows[..i + 1], x) == Group(rows[..i], x) + if rows[i].route == x then [rows[i]] else []
    ensures forall x :: x in Labels(rows[..i + 1]) <==> x in Labels(rows[..i]) || x == rows[i].route
    ensures rows[i].route !in Labels(rows[..i]) ==> Group(rows[..i], rows[i].route) == []
  {
    var u := rows[..i + 1];
    assert u[..i] == rows[..i] && u[i] == rows[i];
    LabelsFacts(rows[..i]);
    InsertLabelFacts(rows[i].route, Labels(rows[..i]));
    GroupMembers(rows[..i], rows[i].route);
    var g := Group(rows[..i], rows[i].route);
    assert forall r :: r in g ==> r.route == rows[i].route && r.route in Labels(rows[..i]);
    assert g != [] ==> g[0] in g;
  }

  /** Two ascending lists of the same elements are equal. */
  lemma {:induction false} AscendingUnique(s: seq<int>, t: seq<int>)
    requires Ascending(s) && Ascending(t) && forall x :: x in s <==> x in t
    ensures s == t
  {
    if s != [] {
      assert s[0] in s;
    }
    if t != [] {
      assert t[0] in t;
      assert s[0] in t && t[0] in s && s[0] == t[0];
      assert s == [s[0]] + s[1..] && t == [t[0]] + t[1..];
      forall x ensures x in s[1..] <==> x in t[1..] {
        assert x in s[1..] <==> x in s && x != s[0];
        assert x in t[1..] <==> x in t && x != t[0];
      }
      AscendingUnique(s[1..], t[1..]);
    }
  }

  lemma {:induction false} GroupAppend(s: seq<Row>, t: seq<Row>, route: int)
    ensures Group(s + t, route) == Group(s, route) + Group(t, route)
  {
    if t == [] {
      assert s + t == s;
    } else {
      var u, last := t[..|t| - 1], t[|t| - 1];
      assert (s + t)[..|s + t| - 1] == s + u && (s + t)[|s + t| - 1] == last;
      GroupAppend(s, u, route);
    }
  }

  lemma {:induction false} GroupUniform(s: seq<Row>, x: int, route: int)
    requires forall r :: r in s ==> r.route == x
    ensures Group(s, route) == if route == x then s else []
  {
    if s != [] {
      assert s == s[..|s| - 1] + [s[|s| - 1]];
      GroupUniform(s[..|s| - 1], x, route);
    }
  }
}
