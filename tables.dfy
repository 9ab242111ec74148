/** Table-level operations shared by every table of the store: key lookup,
    filtered selection, deletion by a column's value, row replacement and
    ordering. Each is generic in the row type and takes the column it works
    on as a function from row to value. */
module Tables {
  import opened Wrappers

  /** The values a column takes over the rows of a table. */
  function ValuesOf<T(==,!new), A>(rows: seq<T>, attr: T -> A): set<A>
  {
    set x | x in rows :: attr(x)
  }

  /** A primary-key or unique constraint: no two rows share the value. */
  predicate Unique<T, A(==)>(rows: seq<T>, attr: T -> A)
  {
    forall i, j | 0 <= i < j < |rows| :: attr(rows[i]) != attr(rows[j])
  }

  lemma UniqueCons<T(!new), A>(x: T, rest: seq<T>, attr: T -> A)
    ensures Unique([x] + rest, attr) <==> Unique(rest, attr) && attr(x) !in ValuesOf(rest, attr)
  {
    var rows := [x] + rest;
    if Unique(rows, attr) {
      forall i, j | 0 <= i < j < |rest|
        ensures attr(rest[i]) != attr(rest[j])
      {
        assert rest[i] == rows[i + 1] && rest[j] == rows[j + 1];
      }
      forall y | y in rest
        ensures attr(y) != attr(x)
      {
        var k :| 0 <= k < |rest| && rest[k] == y;
        assert rows[0] == x && rows[k + 1] == y;
      }
    }
  }

  /** `findFirst(where col = v)`: the first row whose column holds `v`. */
  function Find<T(==,!new), A(==)>(rows: seq<T>, attr: T -> A, v: A): (r: Option<T>)
    ensures r.Some? ==> r.value in rows && attr(r.value) == v
    ensures r.None? <==> v !in ValuesOf(rows, attr)
  {
    if |rows| == 0 then None
    else if attr(rows[0]) == v then Some(rows[0])
    else
      var r := Find(rows[1..], attr, v);
      assert forall x :: x in rows ==> x == rows[0] || x in rows[1..];
      r
  }

  /** Under a unique constraint the row found is the only one with the value. */
  lemma {:induction false} FindUnique<T(!new), A>(rows: seq<T>, attr: T -> A, x: T)
    requires Unique(rows, attr)
    requires x in rows
    ensures Find(rows, attr, attr(x)) == Some(x)
  {
    assert rows == [rows[0]] + rows[1..];
    UniqueCons(rows[0], rows[1..], attr);
    if rows[0] != x {
      assert x in rows[1..];
      FindUnique(rows[1..], attr, x);
    }
  }

  /** `where col = v`, keeping the table's order. */
  function Where<T(==,!new), A(==)>(rows: seq<T>, attr: T -> A, v: A): (r: seq<T>)
    ensures |r| <= |rows|
    ensures forall x :: x in r <==> x in rows && attr(x) == v
  {
    if |rows| == 0 then []
    else
      assert forall x :: x in rows ==> x == rows[0] || x in rows[1..];
      (if attr(rows[0]) == v then [rows[0]] else []) + Where(rows[1..], attr, v)
  }

  /** Selection distributes over concatenation: rows added later appear
      after the earlier matches. */
  lemma {:induction false} WhereAppend<T(!new), A>(a: seq<T>, b: seq<T>, attr: T -> A, v: A)
    ensures Where(a + b, attr, v) == Where(a, attr, v) + Where(b, attr, v)
  {
    if |a| > 0 {
      assert (a + b)[1..] == a[1..] + b;
      WhereAppend(a[1..], b, attr, v);
    } else {
      assert a + b == b;
    }
  }

  /** Selection keeps every copy of a matching row and no copy of any
      other row. */
  lemma {:induction false} WhereCount<T(!new), A>(rows: seq<T>, attr: T -> A, v: A)
    ensures forall x :: multiset(Where(rows, attr, v))[x] == if attr(x) == v then multiset(rows)[x] else 0
  {
    if |rows| > 0 {
      WhereCount(rows[1..], attr, v);
      assert rows == [rows[0]] + rows[1..];
    }
  }

  /** `delete ... where col in vs`: the rows that survive, in order. */
  function Without<T(==,!new), A(==)>(rows: seq<T>, attr: T -> A, vs: set<A>): (r: seq<T>)
    ensures |r| <= |rows|
    ensures forall x :: x in r <==> x in rows && attr(x) !in vs
  {
    if |rows| == 0 then []
    else
      assert forall x :: x in rows ==> x == rows[0] || x in rows[1..];
      (if attr(rows[0]) in vs then [] else [rows[0]]) + Without(rows[1..], attr, vs)
  }

  /** Removing rows never breaks a unique constraint on any column. */
  lemma {:induction false} WithoutKeepsUnique<T(!new), A, B>(rows: seq<T>, attr: T -> A, vs: set<A>, key: T -> B)
    requires Unique(rows, key)
    ensures Unique(Without(rows, attr, vs), key)
  {
    if |rows| > 0 {
      assert rows == [rows[0]] + rows[1..];
      UniqueCons(rows[0], rows[1..], key);
      WithoutKeepsUnique(rows[1..], attr, vs, key);
      var rest := Without(rows[1..], attr, vs);
      if attr(rows[0]) !in vs {
        UniqueCons(rows[0], rest, key);
      } else {
        assert Without(rows, attr, vs) == rest;
      }
    }
  }

  /** Deleting the rows whose key is in `vs` removes exactly those keys. */
  lemma WithoutKeys<T(!new), A>(rows: seq<T>, key: T -> A, vs: set<A>)
    ensures ValuesOf(Without(rows, key, vs), key) == ValuesOf(rows, key) - vs
  {
    var r := Without(rows, key, vs);
    forall k | k in ValuesOf(rows, key) - vs
      ensures k in ValuesOf(r, key)
    {
      var x :| x in rows && key(x) == k;
      assert x in r;
    }
  }

  /** An insert that respects a unique constraint keeps it. */
  lemma AppendKeepsUnique<T(!new), A>(rows: seq<T>, attr: T -> A, x: T)
    requires Unique(rows, attr)
    requires attr(x) !in ValuesOf(rows, attr)
    ensures Unique(rows + [x], attr)
    ensures ValuesOf(rows + [x], attr) == ValuesOf(rows, attr) + {attr(x)}
  {
    var r := rows + [x];
    forall i, j | 0 <= i < j < |r|
      ensures attr(r[i]) != attr(r[j])
    {
      if j == |rows| {
        assert r[i] in rows;
      }
    }
    assert forall y :: y in r <==> y in rows || y == x;
  }

  /** `update ... set ... where key = k`: every row with key `k` becomes
      `row`; the others are left as they were. */
  function Replace<T(==,!new), A(==)>(rows: seq<T>, key: T -> A, k: A, row: T): (r: seq<T>)
    ensures |r| == |rows|
    ensures forall i | 0 <= i < |rows| :: r[i] == if key(rows[i]) == k then row else rows[i]
  {
    seq(|rows|, i requires 0 <= i < |rows| => if key(rows[i]) == k then row else rows[i])
  }

  /** Rewriting a row in place, under its own key, keeps the table's keys and
      its unique constraint. */
  lemma ReplaceKeepsKeys<T(!new), A>(rows: seq<T>, key: T -> A, k: A, row: T)
    requires Unique(rows, key)
    requires key(row) == k
    requires k in ValuesOf(rows, key)
    ensures Unique(Replace(rows, key, k, row), key)
    ensures ValuesOf(Replace(rows, key, k, row), key) == ValuesOf(rows, key)
    ensures row in Replace(rows, key, k, row)
    ensures forall x :: x in Replace(rows, key, k, row) ==> x == row || x in rows
  {
    var r := Replace(rows, key, k, row);
    assert forall i | 0 <= i < |rows| :: key(r[i]) == key(rows[i]);
    forall v | v in ValuesOf(rows, key)
      ensures v in ValuesOf(r, key)
    {
      var x :| x in rows && key(x) == v;
      var i :| 0 <= i < |rows| && rows[i] == x;
      assert key(r[i]) == v;
    }
    var y :| y in rows && key(y) == k;
    var i :| 0 <= i < |rows| && rows[i] == y;
    assert r[i] == row;
  }

  /** `order by rank`: ascending, ties in any order. */
  predicate SortedBy<T>(rows: seq<T>, rank: T -> int)
  {
    forall i, j | 0 <= i < j < |rows| :: rank(rows[i]) <= rank(rows[j])
  }

  function Insert<T(==,!new)>(x: T, sorted: seq<T>, rank: T -> int): (r: seq<T>)
    requires SortedBy(sorted, rank)
    ensures SortedBy(r, rank)
    ensures multiset(r) == multiset(sorted) + multiset{x}
  {
    if |sorted| == 0 then [x]
    else if rank(x) <= rank(sorted[0]) then [x] + sorted
    else
      var rest := Insert(x, sorted[1..], rank);
      assert sorted == [sorted[0]] + sorted[1..];
      assert forall y | y in rest :: y == x || y in sorted[1..] by {
        forall y | y in rest ensures y == x || y in sorted[1..] {
          assert y in multiset(rest);
        }
      }
      assert forall y | y in rest :: rank(sorted[0]) <= rank(y) by {
        forall y | y in rest ensures rank(sorted[0]) <= rank(y) {
          if y != x {
            var j :| 1 <= j < |sorted| && sorted[j] == y;
          }
        }
      }
      SortedCons(sorted[0], rest, rank);
      [sorted[0]] + rest
  }

  /** A row ranked at or below every row of a sorted sequence can lead it. */
  lemma SortedCons<T>(a: T, rest: seq<T>, rank: T -> int)
    requires SortedBy(rest, rank)
    requires forall y | y in rest :: rank(a) <= rank(y)
    ensures SortedBy([a] + rest, rank)
  {
    var r := [a] + rest;
    forall i, j | 0 <= i < j < |r| ensures rank(r[i]) <= rank(r[j]) {
      assert r[j] == rest[j - 1];
      if i > 0 {
        assert r[i] == rest[i - 1];
      }
    }
  }

  /** The rows of a table in the order `order by rank` returns them. */
  function SortBy<T(==,!new)>(rows: seq<T>, rank: T -> int): (r: seq<T>)
    ensures SortedBy(r, rank)
    ensures multiset(r) == multiset(rows)
  {
    if |rows| == 0 then []
    else
      assert rows == [rows[0]] + rows[1..];
      Insert(rows[0], SortBy(rows[1..], rank), rank)
  }

  /** Selecting from a sorted result keeps it sorted. */
  lemma {:induction false} WhereKeepsSorted<T(!new), A>(rows: seq<T>, attr: T -> A, v: A, rank: T -> int)
    requires SortedBy(rows, rank)
    ensures SortedBy(Where(rows, attr, v), rank)
  {
    if |rows| > 0 {
      var tail := rows[1..];
      assert SortedBy(tail, rank) by {
        forall i, j | 0 <= i < j < |tail| ensures rank(tail[i]) <= rank(tail[j]) {
          assert tail[i] == rows[i + 1] && tail[j] == rows[j + 1];
        }
      }
      WhereKeepsSorted(tail, attr, v, rank);
      var rest := Where(tail, attr, v);
      if attr(rows[0]) == v {
        forall y | y in rest ensures rank(rows[0]) <= rank(y) {
          var j :| 0 <= j < |tail| && tail[j] == y;
          assert rows[j + 1] == y;
        }
        SortedCons(rows[0], rest, rank);
        assert Where(rows, attr, v) == [rows[0]] + rest;
      } else {
        assert Where(rows, attr, v) == rest;
      }
    }
  }
}
