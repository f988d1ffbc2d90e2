/**
 Persisting context bundles (db/db004_persistence.py: persist_context_bundle_metadata). Unlike
 the other aggregates a bundle is persisted without comparing the stored collection with the
 incoming one: the root and then every item converge row by row. That a changed bundle is
 still always refused rests on three facts proved here to be enough together: positions are
 unique in a bundle, every item has a positive token count, and the root stores their total.
 */
module BundlePersistence {
  import opened Prelude
  import opened OrderedListings
  import opened EvidenceTables
  import opened EvidencePersistence
  import EvidenceStore
  import opened Identities
  import opened ContextAssembly
  import opened ContextBundles

  datatype BundleRow = BundleRow(repository: string, revision: string, maxTokens: nat, consumed: nat)

  datatype ItemRow = ItemRow(bundle: Id, position: int, tokens: nat, rest: string)

  /** Items are keyed by their own identity, whatever bundle they belong to. */
  datatype BundleTables = BundleTables(bundles: map<Id, BundleRow>, items: map<Id, ItemRow>)

  datatype Item = Item(id: Id, tokens: nat, rest: string)

  datatype Selection = Selection(id: Id, row: BundleRow, items: seq<Item>)

  function NoBundles(): BundleTables {
    BundleTables(map[], map[])
  }

  function Tokens(items: seq<Item>): nat {
    if items == [] then 0 else Tokens(items[..|items| - 1]) + items[|items| - 1].tokens
  }

  /** What the ContextItem and ContextBundle constructors enforce. */
  ghost predicate Constructed(b: Selection) {
    && (forall i, j :: 0 <= i < j < |b.items| ==> b.items[i].id != b.items[j].id)
    && (forall i :: 0 <= i < |b.items| ==> b.items[i].tokens >= 1)
    && Tokens(b.items) == b.row.consumed
  }

  /** The row of each item, at its position counted from 1. */
  function ItemRows(bundle: Id, items: seq<Item>): (r: seq<(Id, ItemRow)>)
    ensures |r| == |items|
    ensures forall i :: 0 <= i < |r| ==> r[i] == (items[i].id, ItemRow(bundle, i + 1, items[i].tokens, items[i].rest))
  {
    seq(|items|, i requires 0 <= i < |items| => (items[i].id, ItemRow(bundle, i + 1, items[i].tokens, items[i].rest)))
  }

  /** Positions are unique in a bundle. */
  predicate PositionTaken(items: map<Id, ItemRow>, id: Id, row: ItemRow) {
    exists k :: k in items && items[k].bundle == row.bundle && items[k].position == row.position
  }

  function PersistBundle(t: BundleTables, b: Selection): Result<BundleTables, Error> {
    var bundles := Converge(t.bundles, b.id, b.row, false);
    if bundles.Err? then Err(bundles.error)
    else
      var items := ConvergeAll(t.items, ItemRows(b.id, b.items), PositionTaken);
      if items.Err? then Err(items.error) else Ok(BundleTables(bundles.value, items.value))
  }

  /** A refused bundle rolls back to its savepoint. */
  function PersistAll(t: BundleTables, bundles: seq<Selection>): BundleTables {
    if bundles == [] then t
    else
      var before := PersistAll(t, bundles[..|bundles| - 1]);
      var attempt := PersistBundle(before, bundles[|bundles| - 1]);
      if attempt.Ok? then attempt.value else before
  }

  // ----- what is stored -----

  /** The root, the rows of the items, and no other item under the root. */
  ghost predicate BundleStored(t: BundleTables, b: Selection) {
    && b.id in t.bundles && t.bundles[b.id] == b.row
    && Holds(t.items, ItemRows(b.id, b.items))
    && forall k :: k in t.items && t.items[k].bundle == b.id ==> exists i :: 0 <= i < |b.items| && b.items[i].id == k
  }

  ghost predicate BundleWhole(t: BundleTables, id: Id) {
    exists b: Selection :: b.id == id && Constructed(b) && BundleStored(t, b)
  }

  /** Every root has the items of one constructed bundle, and every item has a root. */
  ghost predicate Whole(t: BundleTables) {
    && (forall id :: id in t.bundles ==> BundleWhole(t, id))
    && forall k :: k in t.items ==> t.items[k].bundle in t.bundles
  }

  // ----- one row at a time -----

  /** Row i of a convergence that succeeded was stored as given, or was new and clashed with nothing. */
  lemma {:induction false} RowConverged<K(!new), V(!new)>(children: map<K, V>, rows: seq<(K, V)>,
        clash: (map<K, V>, K, V) -> bool, i: nat)
    requires ConvergeAll(children, rows, clash).Ok? && i < |rows|
    ensures var before := ConvergeAll(children, rows[..i], clash);
            && before.Ok?
            && (if rows[i].0 in before.value then before.value[rows[i].0] == rows[i].1
                else !clash(before.value, rows[i].0, rows[i].1))
  {
    var n := |rows| - 1;
    if i < n {
      RowConverged(children, rows[..n], clash, i);
      assert rows[..n][..i] == rows[..i];
    }
  }

  /** What the table holds before row i: the stored rows and the rows before it. */
  lemma BeforeRow(t: BundleTables, b: Selection, i: nat)
    requires Constructed(b) && i < |b.items| && ConvergeAll(t.items, ItemRows(b.id, b.items), PositionTaken).Ok?
    ensures var rows := ItemRows(b.id, b.items);
            var before := ConvergeAll(t.items, rows[..i], PositionTaken);
            && before.Ok?
            && (forall k :: k in t.items ==> k in before.value && before.value[k] == t.items[k])
            && (rows[i].0 in before.value <==> rows[i].0 in t.items)
            && (if rows[i].0 in t.items then t.items[rows[i].0] == rows[i].1
                else !PositionTaken(before.value, rows[i].0, rows[i].1))
  {
    hide ConvergeAll, Collection, Tokens, PositionTaken;
    var rows := ItemRows(b.id, b.items);
    RowConverged(t.items, rows, PositionTaken, i);
    ConvergeAllCollects(t.items, rows[..i], PositionTaken);
    CollectedKeys(rows[..i], rows[i].0);
    assert forall j :: 0 <= j < i ==> rows[..i][j].0 == b.items[j].id;
  }

  /** At a position that is taken, only the item that took it is accepted. */
  lemma StoredItemAgain(t: BundleTables, stored: Selection, b: Selection, i: nat)
    requires BundleStored(t, stored) && Constructed(b) && stored.id == b.id
    requires i < |stored.items| && i < |b.items|
    requires ConvergeAll(t.items, ItemRows(b.id, b.items), PositionTaken).Ok?
    ensures b.items[i] == stored.items[i]
  {
    hide ConvergeAll, Constructed;
    BeforeRow(t, b, i);
    var rows, given := ItemRows(b.id, stored.items), ItemRows(b.id, b.items);
    assert rows[i].0 in t.items && t.items[rows[i].0] == rows[i].1;
    assert given[i].0 in t.items;
    var j :| 0 <= j < |stored.items| && stored.items[j].id == given[i].0;
    assert rows[j].0 in t.items && t.items[rows[j].0] == rows[j].1;
  }

  lemma {:induction false} PrefixTokens(a: seq<Item>, b: seq<Item>)
    requires |a| <= |b| && a == b[..|a|] && forall i :: 0 <= i < |b| ==> b[i].tokens >= 1
    ensures Tokens(a) + |b| - |a| <= Tokens(b)
  {
    if |a| < |b| {
      var n := |b| - 1;
      assert a == b[..n][..|a|];
      PrefixTokens(a, b[..n]);
    } else {
      assert a == b;
    }
  }

  /** Equal totals and an agreeing common prefix leave no room for another item. */
  lemma SameTotalSameItems(a: Selection, b: Selection)
    requires Constructed(a) && Constructed(b) && a.row == b.row
    requires forall i :: 0 <= i < |a.items| && i < |b.items| ==> b.items[i] == a.items[i]
    ensures a.items == b.items
  {
    hide Tokens;
    if |a.items| <= |b.items| {
      assert a.items == b.items[..|a.items|];
      PrefixTokens(a.items, b.items);
    } else {
      assert b.items == a.items[..|b.items|];
      PrefixTokens(b.items, a.items);
    }
  }

  /** A bundle under a stored root is accepted only when it is the stored one. */
  lemma OnlyTheStoredBundle(t: BundleTables, stored: Selection, b: Selection)
    requires BundleStored(t, stored) && Constructed(stored) && Constructed(b) && stored.id == b.id
    requires PersistBundle(t, b).Ok?
    ensures b == stored
  {
    hide ConvergeAll, Constructed, BundleStored;
    assert b.row == stored.row by { StoredRoot(t, stored); }
    forall i | 0 <= i < |stored.items| && i < |b.items| ensures b.items[i] == stored.items[i] {
      StoredItemAgain(t, stored, b, i);
    }
    SameTotalSameItems(stored, b);
  }

  lemma StoredRoot(t: BundleTables, b: Selection)
    requires BundleStored(t, b)
    ensures b.id in t.bundles && t.bundles[b.id] == b.row && Holds(t.items, ItemRows(b.id, b.items))
  {
  }

  lemma StoredBundleReplays(t: BundleTables, b: Selection)
    requires BundleStored(t, b)
    ensures PersistBundle(t, b) == Ok(t)
  {
    hide ConvergeAll, Holds;
    ConvergeAllReplays(t.items, ItemRows(b.id, b.items), PositionTaken);
  }

  // ----- a new root -----

  ghost predicate NewItems(t: BundleTables, b: Selection) {
    forall i :: 0 <= i < |b.items| ==> b.items[i].id !in t.items
  }

  ghost predicate NoItemsUnder(items: map<Id, ItemRow>, id: Id) {
    forall k :: k in items ==> items[k].bundle != id
  }

  lemma {:induction false} NewItemsConverge(t: BundleTables, b: Selection, n: nat)
    requires Constructed(b) && NoItemsUnder(t.items, b.id) && NewItems(t, b) && n <= |b.items|
    ensures ConvergeAll(t.items, ItemRows(b.id, b.items)[..n], PositionTaken).Ok?
  {
    hide Tokens, Collection;
    var rows := ItemRows(b.id, b.items);
    if n > 0 {
      NewItemsConverge(t, b, n - 1);
      assert rows[..n][..n - 1] == rows[..n - 1];
      var before := ConvergeAll(t.items, rows[..n - 1], PositionTaken).value;
      NewRowFits(t, b, n - 1, before);
    }
  }

  lemma NewRowFits(t: BundleTables, b: Selection, i: nat, before: map<Id, ItemRow>)
    requires Constructed(b) && NoItemsUnder(t.items, b.id) && NewItems(t, b) && i < |b.items|
    requires ConvergeAll(t.items, ItemRows(b.id, b.items)[..i], PositionTaken) == Ok(before)
    ensures b.items[i].id !in before
    ensures !PositionTaken(before, b.items[i].id, ItemRows(b.id, b.items)[i].1)
  {
    hide Tokens, Collection, ConvergeAll;
    var rows := ItemRows(b.id, b.items);
    ConvergeAllCollects(t.items, rows[..i], PositionTaken);
    CollectedKeys(rows[..i], b.items[i].id);
    forall k | k in before ensures before[k].bundle != b.id || before[k].position <= i {
      CollectedKeys(rows[..i], k);
      if k in Collection(rows[..i]) {
        var j :| 0 <= j < i && rows[..i][j] == (k, Collection(rows[..i])[k]);
        assert rows[j].1.position == j + 1;
      }
    }
  }

  /** Under a new root an item that is already stored belongs to another bundle and conflicts. */
  lemma NewRootNewItems(t: BundleTables, b: Selection)
    requires Constructed(b) && NoItemsUnder(t.items, b.id) && PersistBundle(t, b).Ok?
    ensures NewItems(t, b)
  {
    hide ConvergeAll, Constructed, PositionTaken;
    forall i | 0 <= i < |b.items| ensures b.items[i].id !in t.items { BeforeRow(t, b, i); }
  }

  lemma PersistedStored(t: BundleTables, b: Selection)
    requires NoItemsUnder(t.items, b.id) && PersistBundle(t, b).Ok?
    ensures BundleStored(PersistBundle(t, b).value, b)
  {
    hide ConvergeAll, Collection, PositionTaken;
    var rows := ItemRows(b.id, b.items);
    ConvergeAllCollects(t.items, rows, PositionTaken);
    var t1 := PersistBundle(t, b).value;
    forall k | k in t1.items && t1.items[k].bundle == b.id
      ensures exists i :: 0 <= i < |b.items| && b.items[i].id == k
    {
      CollectedKeys(rows, k);
      var i :| 0 <= i < |rows| && rows[i].0 == k;
      assert b.items[i].id == k;
    }
  }

  // ----- the promises -----

  lemma WholeRoots(t: BundleTables, id: Id)
    requires Whole(t)
    ensures if id in t.bundles then BundleWhole(t, id) else NoItemsUnder(t.items, id)
  {
  }

  /** A bundle is accepted exactly when it is already stored as it is, or its root and all its items are new. */
  lemma PersistSucceedsIff(t: BundleTables, b: Selection)
    requires Whole(t) && Constructed(b)
    ensures PersistBundle(t, b).Ok? <==> BundleStored(t, b) || (b.id !in t.bundles && NewItems(t, b))
  {
    hide ConvergeAll, Constructed, BundleStored, NoItemsUnder, NewItems, Whole;
    WholeRoots(t, b.id);
    if b.id in t.bundles {
      var stored: Selection :| stored.id == b.id && Constructed(stored) && BundleStored(t, stored);
      if PersistBundle(t, b).Ok? { OnlyTheStoredBundle(t, stored, b); }
      if BundleStored(t, b) { StoredBundleReplays(t, b); }
    } else {
      if PersistBundle(t, b).Ok? { NewRootNewItems(t, b); }
      if NewItems(t, b) {
        NewItemsConverge(t, b, |b.items|);
        assert ItemRows(b.id, b.items)[..|b.items|] == ItemRows(b.id, b.items);
      }
      if BundleStored(t, b) { StoredRoot(t, b); }
    }
  }

  /** Rows are only added, and no root's items change. */
  ghost predicate BundlesEvolve(a: BundleTables, c: BundleTables) {
    && Submap(a.bundles, c.bundles) && Submap(a.items, c.items)
    && forall k :: k in c.items && c.items[k].bundle in a.bundles ==> k in a.items
  }

  lemma StoredBundleStays(a: BundleTables, c: BundleTables, b: Selection)
    requires BundleStored(a, b) && BundlesEvolve(a, c)
    ensures BundleStored(c, b)
  {
  }

  /** An accepted bundle is stored exactly, every other bundle is untouched, and a replay changes nothing. */
  lemma PersistKeepsWhole(t: BundleTables, b: Selection)
    requires Whole(t) && Constructed(b) && PersistBundle(t, b).Ok?
    ensures var t1 := PersistBundle(t, b).value;
            Whole(t1) && BundleStored(t1, b) && BundlesEvolve(t, t1) && (b.id in t.bundles ==> t1 == t)
  {
    hide ConvergeAll, Collection, Constructed, BundleStored, BundleWhole, PositionTaken, PersistBundle, NewItems;
    PersistSucceedsIff(t, b);
    if BundleStored(t, b) {
      StoredBundleReplays(t, b);
    } else {
      NewRootEvolves(t, b);
      PersistedStored(t, b);
      var t1 := PersistBundle(t, b).value;
      forall id | id in t1.bundles ensures BundleWhole(t1, id) {
        if id == b.id {
          WholeBy(t1, b);
        } else {
          WholeStays(t, t1, id);
        }
      }
    }
  }

  lemma WholeBy(t: BundleTables, b: Selection)
    requires Constructed(b) && BundleStored(t, b)
    ensures BundleWhole(t, b.id)
  {
  }

  lemma WholeStays(a: BundleTables, c: BundleTables, id: Id)
    requires BundleWhole(a, id) && BundlesEvolve(a, c)
    ensures BundleWhole(c, id)
  {
    hide Constructed, BundleStored, BundlesEvolve;
    var b: Selection :| b.id == id && Constructed(b) && BundleStored(a, b);
    StoredBundleStays(a, c, b);
  }

  lemma NewRootEvolves(t: BundleTables, b: Selection)
    requires b.id !in t.bundles && PersistBundle(t, b).Ok?
    ensures var t1 := PersistBundle(t, b).value;
            && BundlesEvolve(t, t1) && t1.bundles == t.bundles[b.id := b.row]
            && forall k :: k in t1.items && k !in t.items ==> t1.items[k].bundle == b.id
  {
    hide ConvergeAll, Collection, PositionTaken;
    var rows := ItemRows(b.id, b.items);
    ConvergeAllCollects(t.items, rows, PositionTaken);
    forall k | k in PersistBundle(t, b).value.items && k !in t.items
      ensures PersistBundle(t, b).value.items[k].bundle == b.id
    {
      CollectedKeys(rows, k);
    }
  }

  lemma BundlesEvolveOn(a: BundleTables, b: BundleTables, c: BundleTables)
    requires BundlesEvolve(a, b) && BundlesEvolve(b, c)
    ensures BundlesEvolve(a, c)
  {
  }

  lemma {:induction false} RunKeepsWhole(t: BundleTables, bundles: seq<Selection>)
    requires Whole(t) && forall i :: 0 <= i < |bundles| ==> Constructed(bundles[i])
    ensures Whole(PersistAll(t, bundles)) && BundlesEvolve(t, PersistAll(t, bundles))
  {
    hide Whole, Constructed, PersistBundle;
    if bundles != [] {
      var n := |bundles| - 1;
      RunKeepsWhole(t, bundles[..n]);
      var before := PersistAll(t, bundles[..n]);
      if PersistBundle(before, bundles[n]).Ok? {
        PersistKeepsWhole(before, bundles[n]);
        BundlesEvolveOn(t, before, PersistBundle(before, bundles[n]).value);
      }
    }
  }

  lemma NoBundlesWhole()
    ensures Whole(NoBundles())
  {
  }

  // ----- reading a bundle back -----

  /** The rows a query for the items of a bundle answers, ordered by position. */
  ghost predicate ListsBundle(t: BundleTables, id: Id, rows: seq<(int, Item)>) {
    && Ascending(rows, Ordinal)
    && forall row :: row in rows <==>
         row.1.id in t.items && t.items[row.1.id] == ItemRow(id, row.0, row.1.tokens, row.1.rest)
  }

  lemma StoredLists(t: BundleTables, b: Selection)
    requires BundleStored(t, b)
    ensures ListsBundle(t, b.id, Numbered(b.items))
  {
    var rows, listed := ItemRows(b.id, b.items), Numbered(b.items);
    forall row: (int, Item)
      ensures row in listed <==>
                row.1.id in t.items && t.items[row.1.id] == ItemRow(b.id, row.0, row.1.tokens, row.1.rest)
    {
      if row in listed {
        var i :| 0 <= i < |listed| && listed[i] == row;
        assert rows[i].0 in t.items && t.items[rows[i].0] == rows[i].1;
      }
      if row.1.id in t.items && t.items[row.1.id] == ItemRow(b.id, row.0, row.1.tokens, row.1.rest) {
        var i :| 0 <= i < |b.items| && b.items[i].id == row.1.id;
        assert rows[i].0 in t.items && t.items[rows[i].0] == rows[i].1;
        assert listed[i] == row;
      }
    }
  }

  /** A stored bundle reads back as its items in the given order, and in no other way. */
  lemma StoredReadsOnly(t: BundleTables, b: Selection, rows: seq<(int, Item)>)
    requires BundleStored(t, b)
    ensures ListsBundle(t, b.id, rows) <==> rows == Numbered(b.items)
  {
    hide BundleStored, Numbered;
    StoredLists(t, b);
    if ListsBundle(t, b.id, rows) { AscendingUnique(rows, Numbered(b.items), Ordinal); }
  }

  /**
   Over any run: a bundle that was accepted is stored and read back exactly, is accepted again
   without a change, and no other bundle is ever accepted under its identity.
   */
  lemma BundlesReadBack(before: seq<Selection>, b: Selection, more: seq<Selection>, other: Selection,
        rows: seq<(int, Item)>)
    requires forall i :: 0 <= i < |before| ==> Constructed(before[i])
    requires forall i :: 0 <= i < |more| ==> Constructed(more[i])
    requires Constructed(b) && PersistBundle(PersistAll(NoBundles(), before), b).Ok?
    requires Constructed(other) && other.id == b.id
    ensures var t := PersistAll(PersistBundle(PersistAll(NoBundles(), before), b).value, more);
            && BundleStored(t, b) && PersistBundle(t, b) == Ok(t)
            && (ListsBundle(t, b.id, rows) <==> rows == Numbered(b.items))
            && (PersistBundle(t, other).Ok? ==> other == b)
  {
    hide Whole, Constructed, PersistBundle, BundleStored, PersistAll, BundlesEvolve, ListsBundle, Numbered;
    NoBundlesWhole();
    RunKeepsWhole(NoBundles(), before);
    PersistKeepsWhole(PersistAll(NoBundles(), before), b);
    var t1 := PersistBundle(PersistAll(NoBundles(), before), b).value;
    RunKeepsWhole(t1, more);
    var t := PersistAll(t1, more);
    StoredBundleStays(t1, t, b);
    StoredBundleReplays(t, b);
    StoredReadsOnly(t, b, rows);
    if PersistBundle(t, other).Ok? { OnlyTheStoredBundle(t, b, other); }
  }

  // ----- two bundles -----

  ghost predicate ShareItem(a: Selection, b: Selection) {
    exists i, j :: 0 <= i < |a.items| && 0 <= j < |b.items| && a.items[i].id == b.items[j].id
  }

  lemma {:induction false} OnlyConflicts<K(!new), V(!new)>(children: map<K, V>, rows: seq<(K, V)>,
        clash: (map<K, V>, K, V) -> bool)
    requires ConvergeAll(children, rows, clash).Err?
    ensures ConvergeAll(children, rows, clash) == Err(ConflictError)
  {
    var n := |rows| - 1;
    if ConvergeAll(children, rows[..n], clash).Err? { OnlyConflicts(children, rows[..n], clash); }
  }

  /** The only refusal is a conflict. */
  lemma RefusedIsConflict(t: BundleTables, b: Selection)
    ensures PersistBundle(t, b).Err? ==> PersistBundle(t, b) == Err(ConflictError)
  {
    hide ConvergeAll;
    var rows := ItemRows(b.id, b.items);
    if ConvergeAll(t.items, rows, PositionTaken).Err? { OnlyConflicts(t.items, rows, PositionTaken); }
  }

  lemma StoredItemNotNew(t: BundleTables, a: Selection, b: Selection)
    requires BundleStored(t, a) && ShareItem(a, b)
    ensures !NewItems(t, b)
    ensures BundleStored(t, b) ==> a.id == b.id
  {
    var i, j :| 0 <= i < |a.items| && 0 <= j < |b.items| && a.items[i].id == b.items[j].id;
    var rows, given := ItemRows(a.id, a.items), ItemRows(b.id, b.items);
    assert rows[i].0 in t.items && t.items[rows[i].0] == rows[i].1;
    if BundleStored(t, b) { assert given[j].0 in t.items && t.items[given[j].0] == given[j].1; }
  }

  /** An item belongs to one bundle: beside a stored bundle no other one with an item of it is accepted. */
  lemma SharedItemConflicts(t: BundleTables, a: Selection, b: Selection)
    requires Whole(t) && Constructed(a) && Constructed(b) && BundleStored(t, a) && ShareItem(a, b) && a != b
    ensures PersistBundle(t, b) == Err(ConflictError)
  {
    hide Whole, Constructed, BundleStored, NewItems, PersistBundle, ShareItem;
    RefusedIsConflict(t, b);
    StoredItemNotNew(t, a, b);
    PersistSucceedsIff(t, b);
    if PersistBundle(t, b).Ok? { OnlyTheStoredBundle(t, a, b); }
  }

  /** Of two acceptable bundles the second stays so after the first exactly when they share no item. */
  lemma NextAcceptedIff(t: BundleTables, a: Selection, b: Selection)
    requires Whole(t) && Constructed(a) && Constructed(b) && PersistBundle(t, a).Ok?
    requires a.id != b.id && b.id !in t.bundles && NewItems(t, b)
    ensures PersistBundle(PersistBundle(t, a).value, b).Ok? <==> !ShareItem(a, b)
  {
    hide Whole, Constructed, PersistBundle, BundlesEvolve, BundleStored;
    PersistKeepsWhole(t, a);
    var t1 := PersistBundle(t, a).value;
    if ShareItem(a, b) {
      SharedItemConflicts(t1, a, b);
    } else {
      StillNew(t, a, b);
      PersistSucceedsIff(t1, b);
    }
  }

  lemma StillNew(t: BundleTables, a: Selection, b: Selection)
    requires PersistBundle(t, a).Ok? && !ShareItem(a, b)
    requires a.id != b.id && b.id !in t.bundles && NewItems(t, b)
    ensures b.id !in PersistBundle(t, a).value.bundles && NewItems(PersistBundle(t, a).value, b)
  {
    hide ConvergeAll, Collection, PositionTaken;
    var rows := ItemRows(a.id, a.items);
    ConvergeAllCollects(t.items, rows, PositionTaken);
    forall j | 0 <= j < |b.items| ensures b.items[j].id !in PersistBundle(t, a).value.items {
      CollectedKeys(rows, b.items[j].id);
    }
  }

  /** Over any run: once a bundle is accepted, no other bundle that shares an item with it is ever accepted. */
  lemma SharedItemNeverBoth(before: seq<Selection>, a: Selection, more: seq<Selection>, b: Selection)
    requires forall i :: 0 <= i < |before| ==> Constructed(before[i])
    requires forall i :: 0 <= i < |more| ==> Constructed(more[i])
    requires Constructed(a) && PersistBundle(PersistAll(NoBundles(), before), a).Ok?
    requires Constructed(b) && ShareItem(a, b) && a != b
    ensures var t := PersistAll(PersistBundle(PersistAll(NoBundles(), before), a).value, more);
            PersistBundle(t, b) == Err(ConflictError)
  {
    hide Whole, Constructed, PersistBundle, BundleStored, PersistAll, BundlesEvolve, ShareItem;
    NoBundlesWhole();
    RunKeepsWhole(NoBundles(), before);
    PersistKeepsWhole(PersistAll(NoBundles(), before), a);
    var t1 := PersistBundle(PersistAll(NoBundles(), before), a).value;
    RunKeepsWhole(t1, more);
    StoredBundleStays(t1, PersistAll(t1, more), a);
    SharedItemConflicts(PersistAll(t1, more), a, b);
  }

  // ----- the bundles that assembly makes -----

  /** The stored fields of an assembled bundle; `describe` renders the fields that are only compared. */
  function SelectionOf(id: Id, bundle: Bundle, describe: ContextItem -> string): Selection {
    var items := seq(|bundle.items|, i requires 0 <= i < |bundle.items| =>
      Item(bundle.items[i].id, bundle.items[i].tokens, describe(bundle.items[i])));
    Selection(id, BundleRow(bundle.repository, bundle.revision, bundle.maxTokens, bundle.consumed), items)
  }

  lemma {:induction false} SameTokens(items: seq<ContextItem>, stored: seq<Item>)
    requires |stored| == |items| && forall i :: 0 <= i < |items| ==> stored[i].tokens == items[i].tokens
    ensures Tokens(stored) == TokenSum(items)
  {
    if items != [] {
      var n := |items| - 1;
      SameTokens(items[..n], stored[..n]);
      TokenSumAppend(items[..n], [items[n]]);
      assert items == items[..n] + [items[n]];
    }
  }

  lemma ShownTokens(env: Env, request: Request, item: ContextItem)
    requires ShowsItsFile(env, request, item)
    ensures item.tokens >= 1
  {
    hide GroupOf, ReadsFile, FromSpan, ItemIdentity, BoundedKey;
  }

  /** Every assembled bundle may be persisted, so it is stored and read back as BundlesReadBack says. */
  lemma AssembledConstructed(env: Env, request: Request, id: Id, describe: ContextItem -> string)
    requires Accepted(request) && Assembled(env, request).Ok?
    ensures Constructed(SelectionOf(id, Assembled(env, request).value, describe))
  {
    hide Accepted, Assembled, ShowsItsFile, Tokens, TokenSum, Packed, DigestsCollide, NoLineTwice;
    AssembledGood(env, request);
    var bundle := Assembled(env, request).value;
    var stored := SelectionOf(id, bundle, describe);
    SameTokens(bundle.items, stored.items);
    forall i | 0 <= i < |stored.items| ensures stored.items[i].tokens >= 1 {
      ShownTokens(env, request, bundle.items[i]);
    }
  }

  // ----- the function as it runs -----

  class BundleSession {
    var tables: BundleTables

    constructor ()
      ensures tables == NoBundles()
    {
      tables := NoBundles();
    }

    /** Stores the bundle, or restores the savepoint and answers the conflict. */
    method PersistContextBundle(b: Selection) returns (error: Option<Error>)
      modifies this
      ensures var attempt := PersistBundle(old(tables), b);
              if attempt.Ok? then tables == attempt.value && error.None?
              else tables == old(tables) && error == Some(attempt.error)
    {
      hide Converge, ConvergeAll;
      var savepoint := tables;
      var bundles := Converge(tables.bundles, b.id, b.row, false);
      if bundles.Err? { return Some(bundles.error); }
      tables := tables.(bundles := bundles.value);
      var items := EvidenceStore.ConvergeRows(tables.items, ItemRows(b.id, b.items), PositionTaken);
      if items.Err? { tables := savepoint; return Some(items.error); }
      tables := tables.(items := items.value);
      return None;
    }
  }
}
