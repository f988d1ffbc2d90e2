/**
 What a query with an ORDER BY clause answers (db/db004_queries.py: _selected_rows): the
 rows of a collection, each once, ascending by key. The order of the keys is a parameter,
 because the order of text columns is the collation of the database.
 */
module OrderedListings {

  ghost predicate StrictOrder<K(!new)>(less: (K, K) -> bool) {
    && (forall a, b :: !(less(a, b) && less(b, a)))
    && (forall a, b, c :: less(a, b) && less(b, c) ==> less(a, c))
    && (forall a, b :: a == b || less(a, b) || less(b, a))
  }

  /** The order of numbered rows. */
  predicate Ordinal(a: int, b: int) {
    a < b
  }

  ghost predicate Ascending<K, V>(rows: seq<(K, V)>, less: (K, K) -> bool) {
    forall i, j :: 0 <= i < j < |rows| ==> less(rows[i].0, rows[j].0)
  }

  /** Each entry of the collection, and nothing else, is a row. */
  ghost predicate Complete<K(!new), V(!new)>(rows: seq<(K, V)>, children: map<K, V>) {
    forall row :: row in rows <==> row.0 in children && children[row.0] == row.1
  }

  ghost predicate Lists<K(!new), V(!new)>(rows: seq<(K, V)>, children: map<K, V>, less: (K, K) -> bool) {
    Ascending(rows, less) && Complete(rows, children)
  }

  function Insert<K, V>(rows: seq<(K, V)>, row: (K, V), less: (K, K) -> bool): seq<(K, V)> {
    if rows == [] || less(rows[|rows| - 1].0, row.0) then rows + [row]
    else Insert(rows[..|rows| - 1], row, less) + [rows[|rows| - 1]]
  }

  /** The answer of the query. */
  ghost function Listing<K(!new), V(!new)>(children: map<K, V>, less: (K, K) -> bool): seq<(K, V)>
    decreases |children|
  {
    if children == map[] then []
    else
      var k :| k in children;
      Insert(Listing(children - {k}, less), (k, children[k]), less)
  }

  lemma {:induction false} InsertElements<K(!new), V(!new)>(rows: seq<(K, V)>, row: (K, V), less: (K, K) -> bool)
    ensures forall x :: x in Insert(rows, row, less) <==> x in rows || x == row
  {
    if rows != [] && !less(rows[|rows| - 1].0, row.0) {
      InsertElements(rows[..|rows| - 1], row, less);
      assert rows == rows[..|rows| - 1] + [rows[|rows| - 1]];
    }
  }

  lemma {:induction false} InsertAscends<K(!new), V(!new)>(rows: seq<(K, V)>, row: (K, V), less: (K, K) -> bool)
    requires StrictOrder(less) && Ascending(rows, less)
    requires forall i :: 0 <= i < |rows| ==> rows[i].0 != row.0
    ensures Ascending(Insert(rows, row, less), less)
  {
    if rows != [] {
      var n := |rows| - 1;
      if less(rows[n].0, row.0) {
        forall i | 0 <= i < n ensures less(rows[i].0, row.0) { assert less(rows[i].0, rows[n].0); }
      } else {
        InsertAscends(rows[..n], row, less);
        InsertElements(rows[..n], row, less);
        var front := Insert(rows[..n], row, less);
        forall i | 0 <= i < |front| ensures less(front[i].0, rows[n].0) {
          assert front[i] in front;
        }
      }
    }
  }

  /** The answer lists the collection in order. */
  lemma {:induction false} ListingLists<K(!new), V(!new)>(children: map<K, V>, less: (K, K) -> bool)
    requires StrictOrder(less)
    ensures Lists(Listing(children, less), children, less)
    decreases |children|
  {
    if children != map[] {
      var k :| k in children &&
               Listing(children, less) == Insert(Listing(children - {k}, less), (k, children[k]), less);
      ListingLists(children - {k}, less);
      var front := Listing(children - {k}, less);
      forall i | 0 <= i < |front| ensures front[i].0 != k { assert front[i] in front; }
      InsertAscends(front, (k, children[k]), less);
      InsertElements(front, (k, children[k]), less);
    }
  }

  lemma AscendingLast<K(!new), V(!new)>(rows: seq<(K, V)>, row: (K, V), less: (K, K) -> bool)
    requires Ascending(rows, less) && row in rows
    ensures row == rows[|rows| - 1] || less(row.0, rows[|rows| - 1].0)
  {
  }

  lemma AscendingFront<K(!new), V(!new)>(rows: seq<(K, V)>, row: (K, V), less: (K, K) -> bool)
    requires StrictOrder(less) && Ascending(rows, less) && rows != []
    ensures Ascending(rows[..|rows| - 1], less)
    ensures row in rows[..|rows| - 1] <==> row in rows && row != rows[|rows| - 1]
  {
    var n := |rows| - 1;
    if row in rows && row != rows[n] {
      var i :| 0 <= i < |rows| && rows[i] == row;
      assert rows[..n][i] == row;
    }
    if row in rows[..n] {
      var i :| 0 <= i < n && rows[..n][i] == row;
      assert less(rows[i].0, rows[n].0);
    }
  }

  lemma BothEmpty<T>(a: seq<T>, b: seq<T>)
    requires (forall row :: row in a ==> row in b) && forall row :: row in b ==> row in a
    ensures a == [] <==> b == []
  {
    assert (b != [] ==> b[0] in a) && (a != [] ==> a[0] in b);
  }

  /** Ascending rows are determined by their elements. */
  lemma {:induction false} AscendingUnique<K(!new), V(!new)>(a: seq<(K, V)>, b: seq<(K, V)>, less: (K, K) -> bool)
    requires StrictOrder(less) && Ascending(a, less) && Ascending(b, less)
    requires forall row :: row in a <==> row in b
    ensures a == b
  {
    BothEmpty(a, b);
    if a != [] {
      var x, y := a[|a| - 1], b[|b| - 1];
      assert x in a && y in b;
      AscendingLast(a, y, less);
      AscendingLast(b, x, less);
      assert x == y;
      var a', b' := a[..|a| - 1], b[..|b| - 1];
      forall row ensures row in a' <==> row in b' {
        AscendingFront(a, row, less);
        AscendingFront(b, row, less);
      }
      AscendingFront(a, x, less);
      AscendingFront(b, x, less);
      AscendingUnique(a', b', less);
      assert a == a' + [x] && b == b' + [y];
    }
  }

  /** A query answers given rows exactly when they are the whole collection in ascending order. */
  lemma ListingIs<K(!new), V(!new)>(rows: seq<(K, V)>, children: map<K, V>, less: (K, K) -> bool)
    requires StrictOrder(less) && Complete(rows, children)
    ensures Listing(children, less) == rows <==> Ascending(rows, less)
    ensures forall row :: row in Listing(children, less) <==> row in rows
  {
    hide StrictOrder, Ascending, Listing;
    ListingLists(children, less);
    if Ascending(rows, less) { AscendingUnique(Listing(children, less), rows, less); }
  }
}
