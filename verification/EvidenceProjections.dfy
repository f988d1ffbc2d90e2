/**
 Reading stored evidence (db/db004_queries.py): each projection rebuilds one aggregate from
 its root row and the ordered listings of its children. After a successful persist, and after
 any run that follows it, the projections give back the aggregate that was persisted.
 */
module EvidenceProjections {
  import opened Prelude
  import opened OrderedListings
  import opened EvidenceTables
  import opened EvidencePersistence

  datatype ReadError = NotFound

  datatype EvidenceView = EvidenceView(
    id: Id, row: EvidenceRow, cases: seq<(int, CaseRow)>, observations: seq<(int, ObservationRow)>,
    roles: seq<(Id, Role)>)

  datatype ManifestView = ManifestView(id: Id, row: ManifestRow, members: seq<(Id, ())>)

  /** The patch with its changed files in path order. */
  ghost function ReadPatch(t: Tables, id: Id, less: (string, string) -> bool): Result<Patch, ReadError> {
    if id !in t.patches then Err(NotFound)
    else
      var row := t.patches[id];
      Ok(Patch(id, row.version, row.run, row.attempt, row.provenance, Listing(Children(t.files, id), less), row.rest))
  }

  function ReadVersion(t: Tables, id: Id): Result<Version, ReadError> {
    if id !in t.versions then Err(NotFound)
    else
      var row := t.versions[id];
      Ok(Version(id, row.patch, row.run, row.attempt, row.provenance, row.level, row.parent, row.rest))
  }

  function ReadArtefact(t: Tables, id: Id): Result<Artefact, ReadError> {
    if id !in t.artefacts then Err(NotFound) else Ok(Artefact(id, t.artefacts[id]))
  }

  /** The execution with its test cases and observations in ordinal order and its roles by artefact. */
  ghost function ReadEvidence(t: Tables, id: Id, less: (Id, Id) -> bool): Result<EvidenceView, ReadError> {
    if id !in t.evidence then Err(NotFound)
    else Ok(EvidenceView(id, t.evidence[id], Listing(Children(t.cases, id), Ordinal),
                         Listing(Children(t.observations, id), Ordinal), Listing(Children(t.roles, id), less)))
  }

  /** The manifest with its members by artefact. */
  ghost function ReadManifest(t: Tables, id: Id, less: (Id, Id) -> bool): Result<ManifestView, ReadError> {
    if id !in t.manifests then Err(NotFound)
    else Ok(ManifestView(id, t.manifests[id], Listing(Children(t.members, id), less)))
  }

  // ----- listings of stored collections -----

  ghost predicate SameRows<K(!new), V(!new)>(a: seq<(K, V)>, b: seq<(K, V)>) {
    forall row :: row in a <==> row in b
  }

  /**
   What a listing says of the rows that were given: the same rows, and in the given order exactly
   when it is ascending.
   */
  ghost predicate Relisted<K(!new), V(!new)>(listing: seq<(K, V)>, rows: seq<(K, V)>, less: (K, K) -> bool) {
    SameRows(listing, rows) && (listing == rows <==> Ascending(rows, less))
  }

  lemma {:induction false} CollectionFrom<K(!new), V(!new)>(rows: seq<(K, V)>, k: K)
    requires k in Collection(rows)
    ensures (k, Collection(rows)[k]) in rows
  {
    var n := |rows| - 1;
    if k != rows[n].0 {
      CollectionFrom(rows[..n], k);
      assert rows == rows[..n] + [rows[n]];
    } else {
      assert rows[n] in rows;
    }
  }

  lemma StoredRelists<K(!new), V(!new)>(table: map<Id, map<K, V>>, root: Id, rows: seq<(K, V)>, less: (K, K) -> bool)
    requires StrictOrder(less) && ChildStored(table, root, rows)
    ensures Relisted(Listing(Children(table, root), less), rows, less)
  {
    hide StrictOrder, Listing;
    forall row ensures row in rows <==> row.0 in table[root] && table[root][row.0] == row.1 {
      if row in rows {
        var i :| 0 <= i < |rows| && rows[i] == row;
        assert rows[i].0 in table[root] && table[root][rows[i].0] == rows[i].1;
      }
      if row.0 in table[root] && table[root][row.0] == row.1 { CollectionFrom(rows, row.0); }
    }
    ListingIs(rows, table[root], less);
  }

  lemma OrdinalsAscend<V(!new)>(rows: seq<V>)
    ensures StrictOrder(Ordinal) && Ascending(Numbered(rows), Ordinal)
  {
  }

  /** Rows numbered from 1 are listed as they were given. */
  lemma NumberedReads<V(!new)>(table: map<Id, map<int, V>>, root: Id, rows: seq<V>)
    requires ChildStored(table, root, Numbered(rows))
    ensures Listing(Children(table, root), Ordinal) == Numbered(rows)
  {
    hide Listing, ChildStored, Numbered;
    OrdinalsAscend(rows);
    StoredRelists(table, root, Numbered(rows), Ordinal);
  }

  lemma MembersRelist(t: Tables, w: World, m: Manifest, less: (Id, Id) -> bool)
    requires StrictOrder(less) && ManifestStored(t, w, m)
    ensures Relisted(Listing(Children(t.members, m.id), less), MemberRows(m.members), less)
  {
    hide StrictOrder, Listing, ManifestRefusal;
    var rows, members := MemberRows(m.members), t.members[m.id];
    forall row ensures row in rows <==> row.0 in members && members[row.0] == row.1 {
      if row in rows {
        var i :| 0 <= i < |rows| && rows[i] == row;
        RowKeyCollected(rows, i);
      }
      if row.0 in members {
        CollectionFrom(rows, row.0);
        match row { case (k, ()) => }
      }
    }
    ListingIs(rows, members, less);
  }

  lemma {:induction false} RowKeyCollected<K(!new), V(!new)>(rows: seq<(K, V)>, i: nat)
    requires i < |rows|
    ensures rows[i].0 in Collection(rows)
  {
    if i < |rows| - 1 { RowKeyCollected(rows[..|rows| - 1], i); }
  }

  // ----- the aggregates -----

  ghost predicate CandidateReads(t: Tables, p: Patch, v: Version, less: (string, string) -> bool) {
    var patch := ReadPatch(t, p.id, less);
    && patch.Ok? && patch.value.(files := p.files) == p && SameRows(patch.value.files, p.files)
    && (patch.value == p <==> Ascending(p.files, less))
    && ReadVersion(t, v.id) == Ok(v)
  }

  ghost predicate EvidenceReads(t: Tables, e: Evidence, less: (Id, Id) -> bool) {
    var view := ReadEvidence(t, e.id, less);
    && view.Ok? && view.value.id == e.id && view.value.row == e.row
    && view.value.cases == Numbered(e.cases) && view.value.observations == Numbered(e.observations)
    && Relisted(view.value.roles, RoleRows(e.artefacts), less)
    && forall i :: 0 <= i < |e.artefacts| ==> ReadArtefact(t, e.artefacts[i].0.id) == Ok(e.artefacts[i].0)
  }

  ghost predicate ManifestReads(t: Tables, m: Manifest, less: (Id, Id) -> bool) {
    var view := ReadManifest(t, m.id, less);
    && view.Ok? && view.value.id == m.id && view.value.row == m.row
    && Relisted(view.value.members, MemberRows(m.members), less)
    && forall i :: 0 <= i < |m.members| ==> ReadArtefact(t, m.members[i].id) == Ok(m.members[i])
  }

  /** The projections give the aggregate back. */
  ghost predicate Reads(t: Tables, op: Op, less: (string, string) -> bool) {
    match op
    case OpCandidate(p, v) => CandidateReads(t, p, v, less)
    case OpArtefact(a) => ReadArtefact(t, a.id) == Ok(a)
    case OpEvidence(e) => EvidenceReads(t, e, less)
    case OpManifest(m) => ManifestReads(t, m, less)
  }

  lemma StoredCandidateReads(t: Tables, w: World, p: Patch, v: Version, less: (string, string) -> bool)
    requires StrictOrder(less) && CandidateStored(t, w, p, v)
    ensures CandidateReads(t, p, v, less)
  {
    hide StrictOrder, Listing, Holds, Collection, CandidateRefusal, Ascending, SameRows;
    StoredRelists(t.files, p.id, p.files, less);
  }

  lemma StoredEvidenceReads(t: Tables, w: World, e: Evidence, less: (Id, Id) -> bool)
    requires StrictOrder(less) && EvidenceStored(t, w, e)
    ensures EvidenceReads(t, e, less)
  {
    hide StrictOrder, Listing, ChildStored, EvidenceRefusal, Relisted, Numbered, RoleRows;
    StoredRelists(t.roles, e.id, RoleRows(e.artefacts), less);
    NumberedReads(t.cases, e.id, e.cases);
    NumberedReads(t.observations, e.id, e.observations);
    forall i | 0 <= i < |e.artefacts| ensures ReadArtefact(t, e.artefacts[i].0.id) == Ok(e.artefacts[i].0) {
      assert ArtefactStored(t, e.artefacts[i].0);
    }
  }

  lemma StoredManifestReads(t: Tables, w: World, m: Manifest, less: (Id, Id) -> bool)
    requires StrictOrder(less) && ManifestStored(t, w, m)
    ensures ManifestReads(t, m, less)
  {
    hide StrictOrder, Listing, Relisted, Collection, MemberRows;
    MembersRelist(t, w, m, less);
    assert MembersRefusal(t, m.members).None?;
    MembersAccepted(t, m.members);
  }

  lemma StoredReads(t: Tables, w: World, op: Op, less: (string, string) -> bool)
    requires StrictOrder(less) && Stored(t, w, op)
    ensures Reads(t, op, less)
  {
    hide StrictOrder, CandidateStored, EvidenceStored, ManifestStored, CandidateReads, EvidenceReads, ManifestReads;
    match op
    case OpCandidate(p, v) => StoredCandidateReads(t, w, p, v, less);
    case OpArtefact(a) =>
    case OpEvidence(e) => StoredEvidenceReads(t, w, e, less);
    case OpManifest(m) => StoredManifestReads(t, w, m, less);
  }

  /**
   A persist that succeeded is given back by the projections, at once and after any further run:
   every field and every numbered child exactly, and every other child collection in the given
   order exactly when that order ascends in the collation.
   */
  lemma ProjectionsReadBack(w: World, ops: seq<Op>, op: Op, more: seq<Op>, less: (string, string) -> bool)
    requires forall i :: 0 <= i < |ops| ==> WellFormed(ops[i])
    requires forall i :: 0 <= i < |more| ==> WellFormed(more[i])
    requires WellFormed(op) && Attempted(Run(Empty(), w, ops), w, op).Ok? && StrictOrder(less)
    ensures Reads(Run(Attempted(Run(Empty(), w, ops), w, op).value, w, more), op, less)
  {
    hide StrictOrder, Run, WellFormed, Attempted, Stored, Reads;
    SuccessReadsBackAndReplays(w, ops, op, more);
    StoredReads(Run(Attempted(Run(Empty(), w, ops), w, op).value, w, more), w, op, less);
  }
}
