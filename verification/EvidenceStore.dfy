/**
 The persistence functions as they run: each writes its tables row by row inside a
 savepoint and restores it on the first conflict. Each is proved to be the aggregate of
 the same name, so the promises over runs hold of any sequence of calls.
 */
module EvidenceStore {
  import opened Prelude
  import opened EvidenceTables

  /** Converges child rows one after another. */
  method ConvergeRows<K(==), V(==)>(children: map<K, V>, rows: seq<(K, V)>,
        clash: (map<K, V>, K, V) -> bool) returns (r: Result<map<K, V>, Error>)
    ensures r == ConvergeAll(children, rows, clash)
  {
    hide Converge;
    var after := children;
    var i := 0;
    while i < |rows|
      invariant 0 <= i <= |rows|
      invariant ConvergeAll(children, rows[..i], clash) == Ok(after)
    {
      assert rows[..i + 1][..i] == rows[..i];
      var next := Converge(after, rows[i].0, rows[i].1, clash(after, rows[i].0, rows[i].1));
      if next.Err? {
        FirstErrorStays(children, rows, clash, i + 1);
        return next;
      }
      after := next.value;
      i := i + 1;
    }
    assert rows[..i] == rows;
    return Ok(after);
  }

  lemma {:induction false} FirstErrorStays<K, V>(children: map<K, V>, rows: seq<(K, V)>,
        clash: (map<K, V>, K, V) -> bool, n: nat)
    requires n <= |rows| && ConvergeAll(children, rows[..n], clash).Err?
    ensures ConvergeAll(children, rows, clash) == ConvergeAll(children, rows[..n], clash)
  {
    if n == |rows| {
      assert rows[..n] == rows;
    } else {
      assert rows[..|rows| - 1][..n] == rows[..n];
      FirstErrorStays(children, rows[..|rows| - 1], clash, n);
    }
  }

  lemma {:induction false} FirstRefusalStays(t: Tables, pairs: seq<(Artefact, Role)>, n: nat)
    requires n <= |pairs| && PersistArtefacts(t, pairs[..n]).Err?
    ensures PersistArtefacts(t, pairs) == PersistArtefacts(t, pairs[..n])
  {
    hide PersistArtefact;
    if n == |pairs| {
      assert pairs[..n] == pairs;
    } else {
      assert pairs[..|pairs| - 1][..n] == pairs[..n];
      FirstRefusalStays(t, pairs[..|pairs| - 1], n);
    }
  }

  /** The outcome of an attempt on a session: the new tables, or the savepoint and the error. */
  ghost predicate Settles(before: Tables, attempt: Result<Tables, Error>, after: Tables, error: Option<Error>) {
    if attempt.Ok? then after == attempt.value && error.None? else after == before && error == Some(attempt.error)
  }

  class Session {
    const world: World
    var tables: Tables

    constructor (world: World)
      ensures tables == Empty() && this.world == world
    {
      this.world := world;
      tables := Empty();
    }

    method PersistCandidate(p: Patch, v: Version) returns (error: Option<Error>)
      modifies this
      ensures Settles(old(tables), EvidenceTables.PersistCandidate(old(tables), world, p, v), tables, error)
    {
      hide Converge, ConvergeAll, Collection, CandidateRefusal, VersionTaken;
      var refusal := CandidateRefusal(tables, world, p, v);
      if refusal.Some? { return refusal; }
      var savepoint := tables;
      var existed := p.id in tables.patches;
      var patches := Converge(tables.patches, p.id, PatchRowOf(p), VersionTaken(tables, p.version));
      if patches.Err? { return Some(patches.error); }
      tables := tables.(patches := patches.value);
      var versions := Converge(tables.versions, v.id, VersionRowOf(v), false);
      if versions.Err? { tables := savepoint; return Some(versions.error); }
      tables := tables.(versions := versions.value);
      if existed && Children(tables.files, p.id) != Collection(p.files) {
        tables := savepoint;
        return Some(ConflictError);
      }
      var files := ConvergeRows(Children(tables.files, p.id), p.files, NeverClash);
      if files.Err? { tables := savepoint; return Some(files.error); }
      tables := tables.(files := tables.files[p.id := files.value]);
      return None;
    }

    method PersistArtefact(a: Artefact) returns (error: Option<Error>)
      modifies this
      ensures Settles(old(tables), EvidenceTables.PersistArtefact(old(tables), a), tables, error)
    {
      hide Converge, ArtefactRefusal;
      var refusal := ArtefactRefusal(tables, a);
      if refusal.Some? { return refusal; }
      var artefacts := Converge(tables.artefacts, a.id, a.row, false);
      if artefacts.Err? { return Some(artefacts.error); }
      tables := tables.(artefacts := artefacts.value);
      return None;
    }

    /** Persists the embedded artefacts in order; the caller's savepoint covers a failure part way. */
    method PersistEmbedded(pairs: seq<(Artefact, Role)>) returns (error: Option<Error>)
      modifies this
      ensures PersistArtefacts(old(tables), pairs).Ok? ==>
                error.None? && tables == PersistArtefacts(old(tables), pairs).value
      ensures PersistArtefacts(old(tables), pairs).Err? ==> error == Some(PersistArtefacts(old(tables), pairs).error)
    {
      hide EvidenceTables.PersistArtefact;
      var i := 0;
      while i < |pairs|
        invariant 0 <= i <= |pairs|
        invariant PersistArtefacts(old(tables), pairs[..i]) == Ok(tables)
      {
        assert pairs[..i + 1][..i] == pairs[..i];
        var refused := PersistArtefact(pairs[i].0);
        if refused.Some? {
          FirstRefusalStays(old(tables), pairs, i + 1);
          return refused;
        }
        i := i + 1;
      }
      assert pairs[..i] == pairs;
      return None;
    }

    method PersistEvidence(e: Evidence) returns (error: Option<Error>)
      modifies this
      ensures Settles(old(tables), EvidenceTables.PersistEvidence(old(tables), world, e), tables, error)
    {
      hide Converge, ConvergeAll, Collection, EvidenceRefusal, PersistArtefacts, RoleRows, Numbered;
      var refusal := EvidenceRefusal(tables, world, e);
      if refusal.Some? { return refusal; }
      var savepoint := tables;
      var existed := e.id in tables.evidence;
      var root := Converge(tables.evidence, e.id, e.row, false);
      if root.Err? { return Some(root.error); }
      if existed && !SameCollections(tables, e) { return Some(ConflictError); }
      tables := tables.(evidence := root.value);
      var refused := PersistEmbedded(e.artefacts);
      if refused.Some? { tables := savepoint; return refused; }
      var roles := ConvergeRows(Children(savepoint.roles, e.id), RoleRows(e.artefacts), StreamTaken);
      if roles.Err? { tables := savepoint; return Some(roles.error); }
      var cases := ConvergeRows(Children(savepoint.cases, e.id), Numbered(e.cases), ReferenceTaken);
      if cases.Err? { tables := savepoint; return Some(cases.error); }
      var observations := ConvergeRows(Children(savepoint.observations, e.id), Numbered(e.observations), NeverClash);
      if observations.Err? { tables := savepoint; return Some(observations.error); }
      tables := tables.(roles := savepoint.roles[e.id := roles.value], cases := savepoint.cases[e.id := cases.value],
                        observations := savepoint.observations[e.id := observations.value]);
      return None;
    }

    method PersistManifest(m: Manifest) returns (error: Option<Error>)
      modifies this
      ensures Settles(old(tables), EvidenceTables.PersistManifest(old(tables), world, m), tables, error)
    {
      hide Converge, ConvergeAll, Collection, ManifestRefusal, MemberRows;
      var refusal := ManifestRefusal(tables, world, m);
      if refusal.Some? { return refusal; }
      var savepoint := tables;
      var existed := m.id in tables.manifests;
      var root := Converge(tables.manifests, m.id, m.row, false);
      if root.Err? { return Some(root.error); }
      tables := tables.(manifests := root.value);
      if existed {
        if Children(tables.members, m.id).Keys != Collection(MemberRows(m.members)).Keys {
          tables := savepoint;
          return Some(ConflictError);
        }
        return None;
      }
      var members := ConvergeRows(Children(tables.members, m.id), MemberRows(m.members), NeverClash);
      if members.Err? { tables := savepoint; return Some(members.error); }
      tables := tables.(members := tables.members[m.id := members.value]);
      return None;
    }

    method Perform(op: Op)
      modifies this
      ensures tables == Step(old(tables), world, op)
    {
      hide EvidenceTables.PersistCandidate, EvidenceTables.PersistArtefact, EvidenceTables.PersistEvidence,
           EvidenceTables.PersistManifest;
      match op {
        case OpCandidate(p, v) => var _ := PersistCandidate(p, v);
        case OpArtefact(a) => var _ := PersistArtefact(a);
        case OpEvidence(e) => var _ := PersistEvidence(e);
        case OpManifest(m) => var _ := PersistManifest(m);
      }
    }
  }
}
