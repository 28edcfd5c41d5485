/**
 De-duplication by normalised state, with the states of protected evaluation data removed.
 */
module CleanPool {
  import opened DatasetRows

  datatype Reason = ProtectedState | DuplicateState

  datatype Exclusion = Exclusion(id: int, reason: Reason)

  /** Row i is the first of its normalised state, and that state is not protected. */
  predicate First(rows: seq<Row>, i: nat, held: set<string>, key: string -> string)
    requires i < |rows|
  {
    key(rows[i].state) !in held && forall j :: 0 <= j < i ==> key(rows[j].state) != key(rows[i].state)
  }

  /** The positions of the rows to keep. */
  function Positions(rows: seq<Row>, n: nat, held: set<string>, key: string -> string): seq<nat>
    requires n <= |rows|
  {
    if n == 0 then []
    else Positions(rows, n - 1, held, key) + if First(rows, n - 1, held, key) then [n - 1] else []
  }

  /** Only a property of the rows before it decides whether a row is kept. */
  function Cleaned(rows: seq<Row>, held: set<string>, key: string -> string): seq<Row> {
    if rows == [] then []
    else
      var n := |rows| - 1;
      Cleaned(rows[..n], held, key) + if First(rows, n, held, key) then [rows[n]] else []
  }

  function Excluded(rows: seq<Row>, held: set<string>, key: string -> string): seq<Exclusion> {
    if rows == [] then []
    else
      var n := |rows| - 1;
      Excluded(rows[..n], held, key) +
      if First(rows, n, held, key) then []
      else [Exclusion(rows[n].id, if key(rows[n].state) in held then ProtectedState else DuplicateState)]
  }

  ghost predicate SeenSoFar(seen: set<string>, rows: seq<Row>, i: nat, held: set<string>, key: string -> string)
    requires i <= |rows|
  {
    forall k :: k in seen <==> k !in held && exists j :: 0 <= j < i && key(rows[j].state) == k
  }

  method CleanRows(rows: seq<Row>, held: set<string>, excluded: seq<Exclusion>, key: string -> string)
    returns (result: seq<Row>, log: seq<Exclusion>)
    ensures result == Cleaned(rows, held, key)
    ensures log == excluded + Excluded(rows, held, key)
  {
    hide First, SeenSoFar;
    var seen: set<string> := {};
    result, log := [], excluded;
    SeenAtFirst(rows, held, key);
    for i := 0 to |rows|
      invariant SeenSoFar(seen, rows, i, held, key)
      invariant result == Cleaned(rows[..i], held, key)
      invariant log == excluded + Excluded(rows[..i], held, key)
    {
      var k := key(rows[i].state);
      assert rows[..i + 1][..i] == rows[..i];
      SeeRow(seen, rows, i, held, key);
      if k in held || k in seen {
        log := log + [Exclusion(rows[i].id, if k in held then ProtectedState else DuplicateState)];
      } else {
        seen := seen + {k};
        result := result + [rows[i]];
      }
    }
    assert rows[..|rows|] == rows;
  }

  lemma SeenAtFirst(rows: seq<Row>, held: set<string>, key: string -> string)
    ensures SeenSoFar({}, rows, 0, held, key)
  {
  }

  /** Remembering the unprotected keys is enough to recognise a first occurrence. */
  lemma SeeRow(seen: set<string>, rows: seq<Row>, i: nat, held: set<string>, key: string -> string)
    requires i < |rows| && SeenSoFar(seen, rows, i, held, key)
    ensures var k := key(rows[i].state);
            && (First(rows[..i + 1], i, held, key) <==> k !in held && k !in seen)
            && SeenSoFar(if k in held || k in seen then seen else seen + {k}, rows, i + 1, held, key)
  {
    var k := key(rows[i].state);
    var after := if k in held || k in seen then seen else seen + {k};
    forall x ensures x in after <==> x !in held && exists j :: 0 <= j < i + 1 && key(rows[j].state) == x {
      if x == k {
        assert key(rows[i].state) == x;
      } else if x in seen {
        var j :| 0 <= j < i && key(rows[j].state) == x;
      }
    }
  }

  /** The rows kept are the first unprotected occurrences, all of them, in order. */
  lemma {:induction false} CleanedExactly(rows: seq<Row>, n: nat, held: set<string>, key: string -> string)
    requires n <= |rows|
    ensures var p := Positions(rows, n, held, key);
            && (forall i: nat :: i < n && First(rows, i, held, key) ==> i in p)
            && (forall a :: 0 <= a < |p| ==> p[a] < n && First(rows, p[a], held, key))
            && (forall a, b :: 0 <= a < b < |p| ==> p[a] < p[b])
            && |Cleaned(rows[..n], held, key)| == |p|
            && forall a :: 0 <= a < |p| ==> Cleaned(rows[..n], held, key)[a] == rows[p[a]]
  {
    if n > 0 {
      CleanedExactly(rows, n - 1, held, key);
      assert rows[..n][..n - 1] == rows[..n - 1];
      assert First(rows[..n], n - 1, held, key) == First(rows, n - 1, held, key);
    }
  }

  ghost predicate KeysDiffer(rows: seq<Row>, key: string -> string) {
    forall i, j :: 0 <= i < j < |rows| ==> key(rows[i].state) != key(rows[j].state)
  }

  /** What is left has no protected state and no normalised state twice... */
  lemma {:induction false} CleanedKeys(rows: seq<Row>, held: set<string>, key: string -> string)
    ensures KeysDiffer(Cleaned(rows, held, key), key)
    ensures forall r :: r in Cleaned(rows, held, key) ==> r in rows && key(r.state) !in held
  {
    if rows != [] {
      var n := |rows| - 1;
      var u := rows[..n];
      CleanedKeys(u, held, key);
      assert rows == u + [rows[n]];
      if First(rows, n, held, key) {
        forall i | 0 <= i < |Cleaned(u, held, key)| ensures key(Cleaned(u, held, key)[i].state) != key(rows[n].state) {
          assert Cleaned(u, held, key)[i] in u;
        }
      }
    }
  }

  ghost predicate Has(rows: seq<Row>, k: string, key: string -> string) {
    exists r :: r in rows && key(r.state) == k
  }

  /** ...and no unprotected normalised state is lost. */
  lemma {:induction false} CleanedCovers(rows: seq<Row>, held: set<string>, key: string -> string, k: string)
    requires k !in held
    ensures Has(Cleaned(rows, held, key), k, key) <==> Has(rows, k, key)
  {
    if rows != [] {
      var n := |rows| - 1;
      var u, r, c := rows[..n], rows[n], Cleaned(rows[..n], held, key);
      CleanedCovers(u, held, key, k);
      assert rows == u + [r];
      HasAppend(u, r, k, key);
      HasAppend(c, r, k, key);
      if !First(rows, n, held, key) && key(r.state) == k {
        var j :| 0 <= j < n && key(rows[j].state) == k;
        assert rows[j] in u;
      }
    }
  }

  lemma HasAppend(rows: seq<Row>, r: Row, k: string, key: string -> string)
    ensures Has(rows + [r], k, key) <==> Has(rows, k, key) || key(r.state) == k
  {
    if Has(rows, k, key) {
      var s :| s in rows && key(s.state) == k;
      assert s in rows + [r];
    }
    if key(r.state) == k {
      assert r in rows + [r];
    }
  }

  lemma {:induction false} NothingToClean(rows: seq<Row>, held: set<string>, key: string -> string)
    requires KeysDiffer(rows, key) && forall r :: r in rows ==> key(r.state) !in held
    ensures Cleaned(rows, held, key) == rows && Excluded(rows, held, key) == []
  {
    if rows != [] {
      var n := |rows| - 1;
      assert rows == rows[..n] + [rows[n]];
      NothingToClean(rows[..n], held, key);
    }
  }

  /** Cleaning a second time changes and excludes nothing. */
  lemma CleaningTwice(rows: seq<Row>, held: set<string>, key: string -> string)
    ensures Cleaned(Cleaned(rows, held, key), held, key) == Cleaned(rows, held, key)
    ensures Excluded(Cleaned(rows, held, key), held, key) == []
  {
    CleanedKeys(rows, held, key);
    NothingToClean(Cleaned(rows, held, key), held, key);
  }

  function RowIds(rows: seq<Row>): multiset<int> {
    if rows == [] then multiset{} else RowIds(rows[..|rows| - 1]) + multiset{rows[|rows| - 1].id}
  }

  function ExcludedIds(log: seq<Exclusion>): multiset<int> {
    if log == [] then multiset{} else ExcludedIds(log[..|log| - 1]) + multiset{log[|log| - 1].id}
  }

  lemma RowIdsAppend(rows: seq<Row>, r: Row)
    ensures RowIds(rows + [r]) == RowIds(rows) + multiset{r.id}
  {
    assert (rows + [r])[..|rows|] == rows;
  }

  lemma ExcludedIdsAppend(log: seq<Exclusion>, e: Exclusion)
    ensures ExcludedIds(log + [e]) == ExcludedIds(log) + multiset{e.id}
  {
    assert (log + [e])[..|log|] == log;
  }

  /** Every row is kept or recorded, never both and never twice. */
  lemma {:induction false} EveryRowAccounted(rows: seq<Row>, held: set<string>, key: string -> string)
    ensures |Cleaned(rows, held, key)| + |Excluded(rows, held, key)| == |rows|
    ensures RowIds(Cleaned(rows, held, key)) + ExcludedIds(Excluded(rows, held, key)) == RowIds(rows)
  {
    if rows != [] {
      var n := |rows| - 1;
      EveryRowAccounted(rows[..n], held, key);
      RecordRow(rows, held, key);
    }
  }

  lemma RecordRow(rows: seq<Row>, held: set<string>, key: string -> string)
    requires rows != []
    ensures var u, r := rows[..|rows| - 1], rows[|rows| - 1];
            && RowIds(rows) == RowIds(u) + multiset{r.id}
            && (|| (|Cleaned(rows, held, key)| == |Cleaned(u, held, key)| + 1 &&
                    RowIds(Cleaned(rows, held, key)) == RowIds(Cleaned(u, held, key)) + multiset{r.id} &&
                    Excluded(rows, held, key) == Excluded(u, held, key))
                || (|Excluded(rows, held, key)| == |Excluded(u, held, key)| + 1 &&
                    ExcludedIds(Excluded(rows, held, key)) == ExcludedIds(Excluded(u, held, key)) + multiset{r.id} &&
                    Cleaned(rows, held, key) == Cleaned(u, held, key)))
  {
    hide First, RowIds, ExcludedIds;
    var u, r := rows[..|rows| - 1], rows[|rows| - 1];
    assert rows == u + [r];
    RowIdsAppend(u, r);
    if First(rows, |u|, held, key) {
      RowIdsAppend(Cleaned(u, held, key), r);
    } else {
      var e := Exclusion(r.id, if key(r.state) in held then ProtectedState else DuplicateState);
      ExcludedIdsAppend(Excluded(u, held, key), e);
    }
  }

  /** A recorded reason is the true one: protected states are exactly those in the protected set. */
  lemma {:induction false} ReasonsAreTrue(rows: seq<Row>, held: set<string>, key: string -> string)
    ensures forall e :: e in Excluded(rows, held, key) ==>
              exists i :: 0 <= i < |rows| && rows[i].id == e.id && !First(rows, i, held, key) &&
                          (e.reason == ProtectedState <==> key(rows[i].state) in held)
  {
    if rows != [] {
      var n := |rows| - 1;
      ReasonsAreTrue(rows[..n], held, key);
      forall e | e in Excluded(rows, held, key)
        ensures exists i :: 0 <= i < |rows| && rows[i].id == e.id && !First(rows, i, held, key) &&
                            (e.reason == ProtectedState <==> key(rows[i].state) in held)
      {
        if e in Excluded(rows[..n], held, key) {
          var i :| 0 <= i < n && rows[..n][i].id == e.id && !First(rows[..n], i, held, key) &&
                   (e.reason == ProtectedState <==> key(rows[..n][i].state) in held);
          assert rows[i].id == e.id && !First(rows, i, held, key);
        } else {
          assert rows[n].id == e.id;
        }
      }
    }
  }
}
