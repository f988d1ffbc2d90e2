/**
 What the write-once aggregates promise over every run: rows never change, a child
 collection is fixed with its parent, a success reads back exactly, a replay changes
 nothing, and lineage stays within one run.
 */
module EvidencePersistence {
  import opened Prelude
  import opened EvidenceTables

  // ----- collections -----

  ghost predicate Holds<K(!new), V(!new)>(children: map<K, V>, rows: seq<(K, V)>) {
    forall i :: 0 <= i < |rows| ==> rows[i].0 in children && children[rows[i].0] == rows[i].1
  }

  lemma ConvergeAdds<K, V>(table: map<K, V>, key: K, row: V, clash: bool)
    requires Converge(table, key, row, clash).Ok?
    ensures Converge(table, key, row, clash).value == table[key := row]
    ensures key in table ==> table[key] == row
  {
  }

  /** A success is the old children and the incoming collection, and holds every incoming row. */
  lemma {:induction false} ConvergeAllCollects<K(!new), V(!new)>(children: map<K, V>, rows: seq<(K, V)>,
        clash: (map<K, V>, K, V) -> bool)
    requires ConvergeAll(children, rows, clash).Ok?
    ensures ConvergeAll(children, rows, clash).value == children + Collection(rows)
    ensures Holds(ConvergeAll(children, rows, clash).value, rows)
    ensures forall k :: k in children ==>
              k in ConvergeAll(children, rows, clash).value &&
              ConvergeAll(children, rows, clash).value[k] == children[k]
  {
    hide Converge;
    if rows == [] {
      assert children + map[] == children;
    } else {
      var n := |rows| - 1;
      ConvergeAllCollects(children, rows[..n], clash);
      var before := ConvergeAll(children, rows[..n], clash).value;
      ConvergeAdds(before, rows[n].0, rows[n].1, clash(before, rows[n].0, rows[n].1));
      HoldsMore(before, rows);
    }
  }

  lemma HoldsMore<K(!new), V(!new)>(before: map<K, V>, rows: seq<(K, V)>)
    requires rows != [] && Holds(before, rows[..|rows| - 1])
    requires rows[|rows| - 1].0 in before ==> before[rows[|rows| - 1].0] == rows[|rows| - 1].1
    ensures Holds(before[rows[|rows| - 1].0 := rows[|rows| - 1].1], rows)
  {
  }

  lemma {:induction false} CollectedKeys<K(!new), V(!new)>(rows: seq<(K, V)>, k: K)
    ensures k in Collection(rows) <==> exists i :: 0 <= i < |rows| && rows[i].0 == k
    ensures k in Collection(rows) ==> (k, Collection(rows)[k]) in rows
  {
    if rows != [] {
      var n := |rows| - 1;
      CollectedKeys(rows[..n], k);
      assert rows == rows[..n] + [rows[n]];
      assert rows[n].0 == k ==> rows[n] in rows;
    }
  }

  /** Rows already held are accepted again without a change. */
  lemma {:induction false} ConvergeAllReplays<K(!new), V(!new)>(children: map<K, V>, rows: seq<(K, V)>,
        clash: (map<K, V>, K, V) -> bool)
    requires Holds(children, rows)
    ensures ConvergeAll(children, rows, clash) == Ok(children)
  {
    if rows != [] {
      var n := |rows| - 1;
      assert Holds(children, rows[..n]) by {
        forall i | 0 <= i < n ensures rows[..n][i].0 in children && children[rows[..n][i].0] == rows[..n][i].1 {
          assert rows[..n][i] == rows[i];
        }
      }
      ConvergeAllReplays(children, rows[..n], clash);
      assert rows[n].0 in children && children[rows[n].0] == rows[n].1;
    }
  }

  /** The children of one parent, as a success leaves them: the incoming collection, every row held. */
  lemma ChildrenCollected<K(!new), V(!new)>(table: map<Id, map<K, V>>, root: Id, existed: bool, rows: seq<(K, V)>,
        clash: (map<K, V>, K, V) -> bool)
    requires ConvergeChildren(table, root, existed, rows, clash).Ok?
    requires !existed ==> root !in table
    ensures var after := ConvergeChildren(table, root, existed, rows, clash).value;
            && Children(after, root) == Collection(rows) && Holds(Children(after, root), rows)
            && (forall r :: r != root ==> Children(after, r) == Children(table, r))
            && after.Keys == table.Keys + {root}
            && (existed ==> Children(table, root) == Collection(rows))
  {
    hide ConvergeAll, Collection, Holds;
    ConvergeAllCollects(Children(table, root), rows, clash);
    var c := Collection(rows);
    assert map[] + c == c && c + c == c;
  }

  /** A parent whose children are the incoming ones converges to itself. */
  lemma ChildrenReplay<K(!new), V(!new)>(table: map<Id, map<K, V>>, root: Id, rows: seq<(K, V)>,
        clash: (map<K, V>, K, V) -> bool)
    requires root in table && table[root] == Collection(rows) && Holds(table[root], rows)
    ensures ConvergeChildren(table, root, true, rows, clash) == Ok(table)
  {
    hide ConvergeAll, Collection, Holds;
    ConvergeAllReplays(table[root], rows, clash);
    assert table[root := table[root]] == table;
  }

  // ----- what always holds -----

  ghost predicate PatchBound(t: Tables, p: Id)
    requires p in t.patches
  {
    && t.patches[p].version in t.versions && t.versions[t.patches[p].version].patch == p
    && t.versions[t.patches[p].version].run == t.patches[p].run
    && t.versions[t.patches[p].version].attempt == t.patches[p].attempt
    && t.versions[t.patches[p].version].provenance == t.patches[p].provenance
  }

  ghost predicate VersionBound(t: Tables, v: Id)
    requires v in t.versions
  {
    t.versions[v].patch in t.patches && t.patches[t.versions[v].patch].version == v
  }

  /** Patches and versions are in bijection and agree on run, attempt and provenance. */
  ghost predicate CandidatesGood(t: Tables) {
    && (forall p :: p in t.patches ==> PatchBound(t, p))
    && (forall v :: v in t.versions ==> VersionBound(t, v))
  }

  ghost predicate LineageGood(versions: map<Id, VersionRow>, v: Id)
    requires v in versions
  {
    && versions[v].level <= 1 && (versions[v].level == 0 <==> versions[v].parent.None?)
    && (versions[v].parent.Some? ==>
          && versions[v].parent.value in versions && versions[v].parent.value != v
          && versions[versions[v].parent.value].level == 0
          && versions[versions[v].parent.value].run == versions[v].run)
  }

  /** Every repaired version's parent is stored, initial and of the same run. */
  ghost predicate LineagesGood(versions: map<Id, VersionRow>) {
    forall v :: v in versions ==> LineageGood(versions, v)
  }

  /** Children exist only under stored parents. */
  ghost predicate NoOrphans(t: Tables) {
    && t.files.Keys == t.patches.Keys
    && t.roles.Keys == t.evidence.Keys && t.cases.Keys == t.evidence.Keys && t.observations.Keys == t.evidence.Keys
    && t.members.Keys == t.manifests.Keys
  }

  ghost predicate EvidenceGood(t: Tables, w: World, e: Id)
    requires e in t.evidence
  {
    && t.evidence[e].candidate in t.versions
    && (t.evidence[e].run.Some? ==> t.evidence[e].run.value == t.versions[t.evidence[e].candidate].run)
    && t.evidence[e].attempt in w.attempts
    && w.attempts[t.evidence[e].attempt] == t.versions[t.evidence[e].candidate].run
  }

  /** Every execution ran an attempt of its candidate's run. */
  ghost predicate EvidencesGood(t: Tables, w: World) {
    forall e :: e in t.evidence ==> EvidenceGood(t, w, e)
  }

  ghost predicate Good(t: Tables, w: World) {
    CandidatesGood(t) && LineagesGood(t.versions) && NoOrphans(t) && EvidencesGood(t, w)
  }

  ghost predicate SameChildren<K(!new), V(!new)>(roots: set<Id>, before: map<Id, map<K, V>>, after: map<Id, map<K,
        V>>) {
    forall r :: r in roots ==> Children(after, r) == Children(before, r)
  }

  /** Rows are only added, and the children of a stored parent are fixed. */
  ghost predicate Evolves(a: Tables, b: Tables) {
    && Submap(a.patches, b.patches) && Submap(a.versions, b.versions) && Submap(a.artefacts, b.artefacts)
    && Submap(a.evidence, b.evidence) && Submap(a.manifests, b.manifests)
    && SameChildren(a.patches.Keys, a.files, b.files)
    && SameChildren(a.evidence.Keys, a.roles, b.roles) && SameChildren(a.evidence.Keys, a.cases, b.cases)
    && SameChildren(a.evidence.Keys, a.observations, b.observations)
    && SameChildren(a.manifests.Keys, a.members, b.members)
  }

  lemma SubmapTransitive<K(!new), V(!new)>(a: map<K, V>, b: map<K, V>, c: map<K, V>)
    requires Submap(a, b) && Submap(b, c)
    ensures Submap(a, c) && a.Keys <= b.Keys
  {
  }

  lemma SameChildrenTransitive<K(!new), V(!new)>(roots: set<Id>, more: set<Id>, a: map<Id, map<K, V>>, b: map<Id,
        map<K, V>>, c: map<Id, map<K, V>>)
    requires roots <= more && SameChildren(roots, a, b) && SameChildren(more, b, c)
    ensures SameChildren(roots, a, c)
  {
  }

  lemma EvolvesTransitive(a: Tables, b: Tables, c: Tables)
    requires Evolves(a, b) && Evolves(b, c)
    ensures Evolves(a, c)
  {
    hide Submap, SameChildren;
    SubmapTransitive(a.patches, b.patches, c.patches);
    SubmapTransitive(a.versions, b.versions, c.versions);
    SubmapTransitive(a.artefacts, b.artefacts, c.artefacts);
    SubmapTransitive(a.evidence, b.evidence, c.evidence);
    SubmapTransitive(a.manifests, b.manifests, c.manifests);
    SameChildrenTransitive(a.patches.Keys, b.patches.Keys, a.files, b.files, c.files);
    SameChildrenTransitive(a.evidence.Keys, b.evidence.Keys, a.roles, b.roles, c.roles);
    SameChildrenTransitive(a.evidence.Keys, b.evidence.Keys, a.cases, b.cases, c.cases);
    SameChildrenTransitive(a.evidence.Keys, b.evidence.Keys, a.observations, b.observations, c.observations);
    SameChildrenTransitive(a.manifests.Keys, b.manifests.Keys, a.members, b.members, c.members);
  }

  lemma EvolvesReflexive(t: Tables)
    ensures Evolves(t, t)
  {
  }

  // ----- candidates -----

  /** The stored aggregate is the incoming one, and would be accepted again. */
  ghost predicate CandidateStored(t: Tables, w: World, p: Patch, v: Version) {
    && p.id in t.patches && t.patches[p.id] == PatchRowOf(p)
    && v.id in t.versions && t.versions[v.id] == VersionRowOf(v)
    && p.id in t.files && t.files[p.id] == Collection(p.files) && Holds(t.files[p.id], p.files)
    && CandidateRefusal(t, w, p, v).None?
  }

  lemma CandidateParts(t: Tables, w: World, p: Patch, v: Version)
    requires PersistCandidate(t, w, p, v).Ok?
    ensures CandidateRefusal(t, w, p, v).None? && BindingError(p, v).None? && LineageError(t, v).None?
    ensures var patches := Converge(t.patches, p.id, PatchRowOf(p), VersionTaken(t, p.version));
            var versions := Converge(t.versions, v.id, VersionRowOf(v), false);
            var files := ConvergeChildren(t.files, p.id, p.id in t.patches, p.files, NeverClash);
            && patches.Ok? && versions.Ok? && files.Ok?
            && PersistCandidate(t, w, p, v).value ==
               t.(patches := patches.value, versions := versions.value, files := files.value)
  {
  }

  lemma CandidateAdds(t: Tables, w: World, p: Patch, v: Version)
    requires PersistCandidate(t, w, p, v).Ok? && NoOrphans(t)
    ensures var t1 := PersistCandidate(t, w, p, v).value;
            && t1.patches == t.patches[p.id := PatchRowOf(p)] && t1.versions == t.versions[v.id := VersionRowOf(v)]
            && (p.id in t.patches ==> t.patches[p.id] == PatchRowOf(p))
            && (v.id in t.versions ==> t.versions[v.id] == VersionRowOf(v))
            && p.id in t1.files && t1.files[p.id] == Collection(p.files) && Holds(t1.files[p.id], p.files)
            && SameChildren(t.patches.Keys, t.files, t1.files) && t1.files.Keys == t1.patches.Keys
            && t1 == t.(patches := t1.patches, versions := t1.versions, files := t1.files)
  {
    hide Converge, ConvergeChildren, VersionTaken, CandidateRefusal, PersistCandidate, Collection, Holds,
         LineageError, BindingError;
    CandidateParts(t, w, p, v);
    ConvergeAdds(t.patches, p.id, PatchRowOf(p), VersionTaken(t, p.version));
    ConvergeAdds(t.versions, v.id, VersionRowOf(v), false);
    ChildrenCollected(t.files, p.id, p.id in t.patches, p.files, NeverClash);
  }

  lemma CandidateEvolves(t: Tables, w: World, p: Patch, v: Version)
    requires PersistCandidate(t, w, p, v).Ok? && NoOrphans(t)
    ensures Evolves(t, PersistCandidate(t, w, p, v).value) && NoOrphans(PersistCandidate(t, w, p, v).value)
  {
    hide PersistCandidate, Collection, Holds;
    CandidateAdds(t, w, p, v);
  }

  lemma PatchNotTaken(t: Tables, w: World, p: Patch, v: Version)
    requires PersistCandidate(t, w, p, v).Ok? && CandidatesGood(t)
    ensures p.id !in t.patches ==> v.id !in t.versions
    ensures p.id in t.patches ==> v.id in t.versions
  {
  }

  lemma BijectionGrows(t: Tables, t1: Tables, p: Patch, v: Version)
    requires CandidatesGood(t) && BindingError(p, v).None?
    requires t1.patches == t.patches[p.id := PatchRowOf(p)] && t1.versions == t.versions[v.id := VersionRowOf(v)]
    requires p.id in t.patches ==> t.patches[p.id] == PatchRowOf(p)
    requires v.id in t.versions ==> t.versions[v.id] == VersionRowOf(v)
    requires p.id in t.patches <==> v.id in t.versions
    ensures CandidatesGood(t1)
  {
    forall k | k in t1.patches ensures PatchBound(t1, k) {
      if k != p.id { assert PatchBound(t, k); }
    }
    forall k | k in t1.versions ensures VersionBound(t1, k) {
      if k != v.id { assert VersionBound(t, k); }
    }
  }

  lemma CandidateKeepsBijection(t: Tables, w: World, p: Patch, v: Version)
    requires PersistCandidate(t, w, p, v).Ok? && CandidatesGood(t) && NoOrphans(t)
    ensures CandidatesGood(PersistCandidate(t, w, p, v).value)
  {
    hide PersistCandidate, Collection, Holds, LineageError, Converge, ConvergeChildren, CandidateRefusal,
         CandidatesGood, NoOrphans, BindingError;
    CandidateParts(t, w, p, v);
    CandidateAdds(t, w, p, v);
    PatchNotTaken(t, w, p, v);
    BijectionGrows(t, PersistCandidate(t, w, p, v).value, p, v);
  }

  lemma CandidateKeepsLineage(t: Tables, w: World, p: Patch, v: Version)
    requires PersistCandidate(t, w, p, v).Ok? && LineagesGood(t.versions) && LineageShape(v) && NoOrphans(t)
    ensures LineagesGood(PersistCandidate(t, w, p, v).value.versions)
  {
    hide PersistCandidate, Collection, Holds, Converge, ConvergeChildren, CandidateRefusal, BindingError;
    CandidateParts(t, w, p, v);
    CandidateAdds(t, w, p, v);
    var versions := t.versions[v.id := VersionRowOf(v)];
    forall k | k in versions ensures LineageGood(versions, k) {
      if k != v.id { assert LineageGood(t.versions, k); }
    }
  }

  lemma EvidencesKeepVersions(t: Tables, t1: Tables, w: World)
    requires EvidencesGood(t, w) && Submap(t.versions, t1.versions) && t1.evidence == t.evidence
    ensures EvidencesGood(t1, w)
  {
  }

  lemma CandidateKeeps(t: Tables, w: World, p: Patch, v: Version)
    requires PersistCandidate(t, w, p, v).Ok? && Good(t, w) && LineageShape(v)
    ensures Good(PersistCandidate(t, w, p, v).value, w) && Evolves(t, PersistCandidate(t, w, p, v).value)
  {
    hide PersistCandidate, CandidatesGood, LineagesGood, NoOrphans, EvidencesGood, Submap, SameChildren, LineageShape;
    CandidateEvolves(t, w, p, v);
    CandidateKeepsBijection(t, w, p, v);
    CandidateKeepsLineage(t, w, p, v);
    CandidateTouchesOnly(t, w, p, v);
    EvidencesKeepVersions(t, PersistCandidate(t, w, p, v).value, w);
  }

  lemma CandidateTouchesOnly(t: Tables, w: World, p: Patch, v: Version)
    requires PersistCandidate(t, w, p, v).Ok?
    ensures PersistCandidate(t, w, p, v).value.evidence == t.evidence
  {
  }

  /** After a success the incoming candidate is stored whole. */
  lemma CandidateReadsBack(t: Tables, w: World, p: Patch, v: Version)
    requires PersistCandidate(t, w, p, v).Ok? && Good(t, w)
    ensures CandidateStored(PersistCandidate(t, w, p, v).value, w, p, v)
  {
    hide PersistCandidate, Collection, Holds, Converge, ConvergeChildren, BindingError, CandidatesGood, LineagesGood,
         EvidencesGood;
    CandidateParts(t, w, p, v);
    CandidateAdds(t, w, p, v);
    LineageStays(t, PersistCandidate(t, w, p, v).value, v);
  }

  lemma LineageStays(t: Tables, t1: Tables, v: Version)
    requires LineageError(t, v).None? && Submap(t.versions, t1.versions)
    ensures LineageError(t1, v).None?
  {
  }

  lemma CandidateStays(t: Tables, t1: Tables, w: World, p: Patch, v: Version)
    requires CandidateStored(t, w, p, v) && Evolves(t, t1) && NoOrphans(t1)
    ensures CandidateStored(t1, w, p, v)
  {
  }

  lemma CandidateReplays(t: Tables, w: World, p: Patch, v: Version)
    requires CandidateStored(t, w, p, v)
    ensures PersistCandidate(t, w, p, v) == Ok(t)
  {
    hide Collection, Holds, ConvergeChildren, CandidateRefusal, VersionTaken;
    ChildrenReplay(t.files, p.id, p.files, NeverClash);
  }

  // ----- artefacts -----

  ghost predicate ArtefactStored(t: Tables, a: Artefact) {
    a.id in t.artefacts && t.artefacts[a.id] == a.row && ArtefactRefusal(t, a).None?
  }

  lemma ArtefactAdds(t: Tables, a: Artefact)
    requires PersistArtefact(t, a).Ok?
    ensures ArtefactStored(PersistArtefact(t, a).value, a)
    ensures PersistArtefact(t, a).value == t.(artefacts := PersistArtefact(t, a).value.artefacts)
    ensures Submap(t.artefacts, PersistArtefact(t, a).value.artefacts)
  {
  }

  lemma ArtefactKeeps(t: Tables, w: World, a: Artefact)
    requires PersistArtefact(t, a).Ok? && Good(t, w)
    ensures Good(PersistArtefact(t, a).value, w) && Evolves(t, PersistArtefact(t, a).value)
  {
    hide PersistArtefact, LineagesGood, ArtefactStored, Submap, SameChildren, EvidenceGood, PatchBound, VersionBound;
    ArtefactAdds(t, a);
    OnlyArtefacts(t, PersistArtefact(t, a).value, w);
  }

  lemma OnlyArtefacts(t: Tables, t1: Tables, w: World)
    requires t1 == t.(artefacts := t1.artefacts) && Submap(t.artefacts, t1.artefacts)
    ensures Evolves(t, t1) && (Good(t, w) ==> Good(t1, w))
  {
    if Good(t, w) {
      forall p | p in t1.patches ensures PatchBound(t1, p) { assert PatchBound(t, p); }
      forall v | v in t1.versions ensures VersionBound(t1, v) { assert VersionBound(t, v); }
      forall e | e in t1.evidence ensures EvidenceGood(t1, w, e) { assert EvidenceGood(t, w, e); }
    }
  }

  lemma ArtefactStays(t: Tables, t1: Tables, a: Artefact)
    requires ArtefactStored(t, a) && Submap(t.artefacts, t1.artefacts) && Submap(t.versions, t1.versions)
    requires Submap(t.evidence, t1.evidence)
    ensures ArtefactStored(t1, a)
  {
  }

  lemma ArtefactReplays(t: Tables, a: Artefact)
    requires ArtefactStored(t, a)
    ensures PersistArtefact(t, a) == Ok(t)
  {
  }

  ghost predicate ArtefactsStored(t: Tables, pairs: seq<(Artefact, Role)>) {
    forall i :: 0 <= i < |pairs| ==> ArtefactStored(t, pairs[i].0)
  }

  /** Persisting embedded artefacts only adds artefact rows, and stores every one of them. */
  lemma {:induction false} ArtefactsAdd(t: Tables, pairs: seq<(Artefact, Role)>)
    requires PersistArtefacts(t, pairs).Ok?
    ensures var t1 := PersistArtefacts(t, pairs).value;
            t1 == t.(artefacts := t1.artefacts) && Submap(t.artefacts, t1.artefacts) && ArtefactsStored(t1, pairs)
  {
    hide PersistArtefact, ArtefactStored;
    if pairs != [] {
      var n := |pairs| - 1;
      ArtefactsAdd(t, pairs[..n]);
      var before := PersistArtefacts(t, pairs[..n]).value;
      ArtefactAdds(before, pairs[n].0);
      var after := PersistArtefact(before, pairs[n].0).value;
      forall i | 0 <= i < |pairs| ensures ArtefactStored(after, pairs[i].0) {
        if i < n {
          assert pairs[..n][i] == pairs[i];
          SubmapReflexive(t.versions, t.evidence);
          ArtefactStays(before, after, pairs[i].0);
        }
      }
    }
  }

  lemma SubmapReflexive(versions: map<Id, VersionRow>, evidence: map<Id, EvidenceRow>)
    ensures Submap(versions, versions) && Submap(evidence, evidence)
  {
  }

  lemma {:induction false} ArtefactsReplay(t: Tables, pairs: seq<(Artefact, Role)>)
    requires ArtefactsStored(t, pairs)
    ensures PersistArtefacts(t, pairs) == Ok(t)
  {
    hide PersistArtefact, ArtefactStored;
    if pairs != [] {
      var n := |pairs| - 1;
      assert ArtefactsStored(t, pairs[..n]) by {
        forall i | 0 <= i < n ensures ArtefactStored(t, pairs[..n][i].0) { assert pairs[..n][i] == pairs[i]; }
      }
      ArtefactsReplay(t, pairs[..n]);
      ArtefactReplays(t, pairs[n].0);
    }
  }

  // ----- execution evidence -----

  ghost predicate LinksFixed(e: Evidence) {
    forall i :: 0 <= i < |e.artefacts| ==>
      && (e.artefacts[i].0.row.evidence.Some? ==> e.artefacts[i].0.row.evidence.value == e.id)
      && (e.artefacts[i].0.row.candidate.Some? ==> e.artefacts[i].0.row.candidate.value == e.row.candidate)
  }

  ghost predicate ChildStored<K(!new), V(!new)>(table: map<Id, map<K, V>>, root: Id, rows: seq<(K, V)>) {
    root in table && table[root] == Collection(rows) && Holds(table[root], rows)
  }

  ghost predicate EvidenceStored(t: Tables, w: World, e: Evidence) {
    && e.id in t.evidence && t.evidence[e.id] == e.row
    && ChildStored(t.roles, e.id, RoleRows(e.artefacts))
    && ChildStored(t.cases, e.id, Numbered(e.cases)) && ChildStored(t.observations, e.id, Numbered(e.observations))
    && ArtefactsStored(t, e.artefacts)
    && EvidenceRefusal(t, w, e).None?
  }

  lemma EvidenceParts(t: Tables, w: World, e: Evidence)
    requires PersistEvidence(t, w, e).Ok?
    ensures EvidenceRefusal(t, w, e).None?
    ensures var existed := e.id in t.evidence;
            var root := Converge(t.evidence, e.id, e.row, false);
            && root.Ok?
            && var artefacts := PersistArtefacts(t.(evidence := root.value), e.artefacts);
               var roles := ConvergeChildren(t.roles, e.id, existed, RoleRows(e.artefacts), StreamTaken);
               var cases := ConvergeChildren(t.cases, e.id, existed, Numbered(e.cases), ReferenceTaken);
               var observations := ConvergeChildren(t.observations, e.id, existed, Numbered(e.observations),
                                                    NeverClash);
            && artefacts.Ok? && roles.Ok? && cases.Ok? && observations.Ok?
            && PersistEvidence(t, w, e).value ==
               artefacts.value.(roles := roles.value, cases := cases.value, observations := observations.value)
  {
  }

  lemma ChildAdded<K(!new), V(!new)>(table: map<Id, map<K, V>>, root: Id, existed: bool, rows: seq<(K, V)>,
        clash: (map<K, V>, K, V) -> bool, roots: set<Id>)
    requires ConvergeChildren(table, root, existed, rows, clash).Ok?
    requires table.Keys == roots && (existed <==> root in roots)
    ensures var after := ConvergeChildren(table, root, existed, rows, clash).value;
            ChildStored(after, root, rows) && SameChildren(roots, table, after) && after.Keys == roots + {root}
  {
    hide ConvergeChildren, Collection, Holds;
    ChildrenCollected(table, root, existed, rows, clash);
  }

  lemma EvidenceAddsArtefacts(t: Tables, w: World, e: Evidence)
    requires PersistEvidence(t, w, e).Ok?
    ensures var t1 := PersistEvidence(t, w, e).value;
            && t1.evidence == t.evidence[e.id := e.row] && (e.id in t.evidence ==> t.evidence[e.id] == e.row)
            && ArtefactsStored(t1, e.artefacts) && Submap(t.artefacts, t1.artefacts)
            && t1 == t.(evidence := t1.evidence, artefacts := t1.artefacts, roles := t1.roles, cases := t1.cases,
                        observations := t1.observations)
  {
    hide Converge, ConvergeChildren, PersistArtefacts, EvidenceRefusal, PersistEvidence, RoleRows, Numbered,
         ArtefactsStored, Submap;
    EvidenceParts(t, w, e);
    ConvergeAdds(t.evidence, e.id, e.row, false);
    var rooted := t.(evidence := t.evidence[e.id := e.row]);
    ArtefactsAdd(rooted, e.artefacts);
    ArtefactsIgnoreChildren(PersistArtefacts(rooted, e.artefacts).value, PersistEvidence(t, w, e).value, e.artefacts);
  }

  /** The children of one execution are the incoming ones and everyone else's are untouched. */
  ghost predicate ChildAddedTo<K(!new), V(!new)>(roots: set<Id>, before: map<Id, map<K, V>>, after: map<Id, map<K, V>>,
        root: Id, rows: seq<(K, V)>) {
    ChildStored(after, root, rows) && SameChildren(roots, before, after) && after.Keys == roots + {root}
  }

  lemma EvidenceAdds(t: Tables, w: World, e: Evidence)
    requires PersistEvidence(t, w, e).Ok? && NoOrphans(t)
    ensures var t1 := PersistEvidence(t, w, e).value;
            && ChildAddedTo(t.evidence.Keys, t.roles, t1.roles, e.id, RoleRows(e.artefacts))
            && ChildAddedTo(t.evidence.Keys, t.cases, t1.cases, e.id, Numbered(e.cases))
            && ChildAddedTo(t.evidence.Keys, t.observations, t1.observations, e.id, Numbered(e.observations))
  {
    hide Converge, ConvergeChildren, PersistArtefacts, EvidenceRefusal, PersistEvidence, ChildStored, SameChildren,
         RoleRows, Numbered;
    EvidenceParts(t, w, e);
    var existed := e.id in t.evidence;
    ChildAdded(t.roles, e.id, existed, RoleRows(e.artefacts), StreamTaken, t.evidence.Keys);
    ChildAdded(t.cases, e.id, existed, Numbered(e.cases), ReferenceTaken, t.evidence.Keys);
    ChildAdded(t.observations, e.id, existed, Numbered(e.observations), NeverClash, t.evidence.Keys);
  }

  lemma ArtefactsIgnoreChildren(t: Tables, t1: Tables, pairs: seq<(Artefact, Role)>)
    requires ArtefactsStored(t, pairs)
    requires t1 == t.(roles := t1.roles, cases := t1.cases, observations := t1.observations)
    ensures ArtefactsStored(t1, pairs)
  {
  }

  lemma SubmapInsert<V(!new)>(a: map<Id, V>, key: Id, row: V)
    requires key in a ==> a[key] == row
    ensures Submap(a, a[key := row])
  {
  }

  lemma EvidenceEvolves(t: Tables, w: World, e: Evidence)
    requires PersistEvidence(t, w, e).Ok? && NoOrphans(t)
    ensures Evolves(t, PersistEvidence(t, w, e).value) && NoOrphans(PersistEvidence(t, w, e).value)
  {
    hide PersistEvidence, ChildStored, ArtefactsStored, RoleRows, Numbered, SameChildren, Submap;
    EvidenceAdds(t, w, e);
    EvidenceAddsArtefacts(t, w, e);
    SubmapInsert(t.evidence, e.id, e.row);
    EvolvesReflexive(t);
  }

  lemma EvidenceLinked(t: Tables, w: World, e: Evidence)
    requires EvidenceRefusal(t, w, e).None? && EvidencesGood(t, w)
    ensures EvidencesGood(t.(evidence := t.evidence[e.id := e.row]), w)
  {
  }

  lemma EvidencesIgnore(t: Tables, t1: Tables, w: World)
    requires EvidencesGood(t, w) && t1.evidence == t.evidence && t1.versions == t.versions
    ensures EvidencesGood(t1, w)
  {
  }

  lemma CandidatesIgnore(t: Tables, t1: Tables)
    requires CandidatesGood(t) && t1.patches == t.patches && t1.versions == t.versions
    ensures CandidatesGood(t1)
  {
  }

  lemma EvidenceKeeps(t: Tables, w: World, e: Evidence)
    requires PersistEvidence(t, w, e).Ok? && Good(t, w)
    ensures Good(PersistEvidence(t, w, e).value, w) && Evolves(t, PersistEvidence(t, w, e).value)
  {
    hide PersistEvidence, CandidatesGood, LineagesGood, EvidencesGood, NoOrphans, Submap, SameChildren, ChildStored,
         ArtefactsStored, EvidenceRefusal,
         RoleRows, Numbered, Evolves;
    EvidenceParts(t, w, e);
    EvidenceAddsArtefacts(t, w, e);
    EvidenceEvolves(t, w, e);
    var t1 := PersistEvidence(t, w, e).value;
    EvidenceLinked(t, w, e);
    EvidencesIgnore(t.(evidence := t.evidence[e.id := e.row]), t1, w);
    CandidatesIgnore(t, t1);
  }

  /** Embedded artefacts that were stored declare no other execution and no other candidate. */
  lemma LinksAreFixed(t: Tables, t1: Tables, w: World, e: Evidence)
    requires EvidenceRefusal(t, w, e).None? && ArtefactsStored(t1, e.artefacts) && t1.versions == t.versions
    ensures LinksFixed(e)
  {
  }

  lemma EvidenceAcceptedLater(t: Tables, t1: Tables, w: World, e: Evidence)
    requires EvidenceRefusal(t, w, e).None? && LinksFixed(e) && Submap(t.versions, t1.versions)
    ensures EvidenceRefusal(t1, w, e).None?
  {
  }

  lemma EvidenceReadsBack(t: Tables, w: World, e: Evidence)
    requires PersistEvidence(t, w, e).Ok? && Good(t, w)
    ensures EvidenceStored(PersistEvidence(t, w, e).value, w, e)
  {
    hide PersistEvidence, CandidatesGood, LineagesGood, EvidencesGood, Submap, SameChildren, ChildStored,
         ArtefactsStored, EvidenceRefusal,
         RoleRows, Numbered, LinksFixed;
    EvidenceParts(t, w, e);
    EvidenceAdds(t, w, e);
    EvidenceAddsArtefacts(t, w, e);
    var t1 := PersistEvidence(t, w, e).value;
    LinksAreFixed(t, t1, w, e);
    SubmapReflexive(t.versions, t.evidence);
    EvidenceAcceptedLater(t, t1, w, e);
  }

  lemma ChildStays<K(!new), V(!new)>(roots: set<Id>, a: map<Id, map<K, V>>, b: map<Id, map<K, V>>, root: Id,
        rows: seq<(K, V)>)
    requires ChildStored(a, root, rows) && SameChildren(roots, a, b) && root in roots && root in b
    ensures ChildStored(b, root, rows)
  {
  }

  lemma ArtefactsStay(t: Tables, t1: Tables, pairs: seq<(Artefact, Role)>)
    requires ArtefactsStored(t, pairs) && Submap(t.artefacts, t1.artefacts) && Submap(t.versions, t1.versions)
    requires Submap(t.evidence, t1.evidence)
    ensures ArtefactsStored(t1, pairs)
  {
  }

  lemma KeyStays<V(!new)>(a: map<Id, V>, b: map<Id, V>, k: Id)
    requires Submap(a, b) && k in a
    ensures k in b && b[k] == a[k]
  {
  }

  lemma EvidenceStays(t: Tables, t1: Tables, w: World, e: Evidence)
    requires EvidenceStored(t, w, e) && Evolves(t, t1) && NoOrphans(t1)
    ensures EvidenceStored(t1, w, e)
  {
    hide ChildStored, SameChildren, ArtefactsStored, EvidenceRefusal, RoleRows, Numbered, LinksFixed, Submap;
    KeyStays(t.evidence, t1.evidence, e.id);
    ChildStays(t.evidence.Keys, t.roles, t1.roles, e.id, RoleRows(e.artefacts));
    ChildStays(t.evidence.Keys, t.cases, t1.cases, e.id, Numbered(e.cases));
    ChildStays(t.evidence.Keys, t.observations, t1.observations, e.id, Numbered(e.observations));
    ArtefactsStay(t, t1, e.artefacts);
    LinksAreFixed(t, t, w, e);
    EvidenceAcceptedLater(t, t1, w, e);
  }

  lemma EvidenceReplays(t: Tables, w: World, e: Evidence)
    requires EvidenceStored(t, w, e)
    ensures PersistEvidence(t, w, e) == Ok(t)
  {
    hide ConvergeChildren, ArtefactsStored, EvidenceRefusal, RoleRows, Numbered, PersistArtefacts, Collection, Holds;
    ChildrenReplay(t.roles, e.id, RoleRows(e.artefacts), StreamTaken);
    ChildrenReplay(t.cases, e.id, Numbered(e.cases), ReferenceTaken);
    ChildrenReplay(t.observations, e.id, Numbered(e.observations), NeverClash);
    assert t.(evidence := t.evidence) == t;
    ArtefactsReplay(t, e.artefacts);
  }

  // ----- manifests -----

  ghost predicate MembersStored(t: Tables, members: seq<Artefact>) {
    forall i :: 0 <= i < |members| ==> members[i].id in t.artefacts && t.artefacts[members[i].id] == members[i].row
  }

  ghost predicate ManifestStored(t: Tables, w: World, m: Manifest) {
    && m.id in t.manifests && t.manifests[m.id] == m.row
    && m.id in t.members && t.members[m.id].Keys == Collection(MemberRows(m.members)).Keys
    && ManifestRefusal(t, w, m).None?
  }

  lemma {:induction false} MembersAccepted(t: Tables, members: seq<Artefact>)
    ensures MembersRefusal(t, members).None? <==> MembersStored(t, members)
  {
    if members != [] {
      var n := |members| - 1;
      MembersAccepted(t, members[..n]);
      assert MembersStored(t, members) ==> MembersStored(t, members[..n]);
      assert MembersStored(t, members[..n]) ==> forall i :: 0 <= i < n ==> members[..n][i] == members[i];
    }
  }

  lemma MembersStay(t: Tables, t1: Tables, members: seq<Artefact>)
    requires MembersRefusal(t, members).None? && Submap(t.artefacts, t1.artefacts)
    ensures MembersRefusal(t1, members).None?
  {
  }

  lemma ManifestAcceptedLater(t: Tables, t1: Tables, w: World, m: Manifest)
    requires ManifestRefusal(t, w, m).None?
    requires Submap(t.artefacts, t1.artefacts) && Submap(t.versions, t1.versions) && Submap(t.evidence, t1.evidence)
    ensures ManifestRefusal(t1, w, m).None?
  {
    hide MembersRefusal, Duplicates;
    MembersStay(t, t1, m.members);
  }

  lemma ManifestAdds(t: Tables, w: World, m: Manifest)
    requires PersistManifest(t, w, m).Ok? && NoOrphans(t)
    ensures ManifestRefusal(t, w, m).None?
    ensures var t1 := PersistManifest(t, w, m).value;
            && t1 == t.(manifests := t1.manifests, members := t1.members)
            && t1.manifests == t.manifests[m.id := m.row] && (m.id in t.manifests ==> t.manifests[m.id] == m.row)
            && SameChildren(t.manifests.Keys, t.members, t1.members) && t1.members.Keys == t1.manifests.Keys
            && m.id in t1.members && t1.members[m.id].Keys == Collection(MemberRows(m.members)).Keys
  {
    hide ConvergeAll, Collection, MemberRows, ManifestRefusal;
    if m.id !in t.manifests {
      ConvergeAllCollects(Children(t.members, m.id), MemberRows(m.members), NeverClash);
      assert map[] + Collection(MemberRows(m.members)) == Collection(MemberRows(m.members));
    } else {
      assert t.manifests[m.id := m.row] == t.manifests;
    }
  }

  lemma ManifestKeeps(t: Tables, w: World, m: Manifest)
    requires PersistManifest(t, w, m).Ok? && Good(t, w)
    ensures Good(PersistManifest(t, w, m).value, w) && Evolves(t, PersistManifest(t, w, m).value)
  {
    hide PersistManifest, CandidatesGood, LineagesGood, EvidencesGood, SameChildren, Submap, Collection, MemberRows,
         ManifestRefusal;
    ManifestAdds(t, w, m);
    var t1 := PersistManifest(t, w, m).value;
    SubmapInsert(t.manifests, m.id, m.row);
    EvolvesReflexive(t);
    EvidencesIgnore(t, t1, w);
    CandidatesIgnore(t, t1);
  }

  lemma ManifestReadsBack(t: Tables, w: World, m: Manifest)
    requires PersistManifest(t, w, m).Ok? && Good(t, w)
    ensures ManifestStored(PersistManifest(t, w, m).value, w, m)
  {
    hide PersistManifest, Collection, MemberRows, ManifestRefusal, CandidatesGood, LineagesGood, EvidencesGood, Submap;
    ManifestAdds(t, w, m);
    EvolvesReflexive(t);
    ManifestAcceptedLater(t, PersistManifest(t, w, m).value, w, m);
  }

  lemma ManifestStays(t: Tables, t1: Tables, w: World, m: Manifest)
    requires ManifestStored(t, w, m) && Evolves(t, t1) && NoOrphans(t1)
    ensures ManifestStored(t1, w, m)
  {
    hide Collection, MemberRows, ManifestRefusal, Submap;
    KeyStays(t.manifests, t1.manifests, m.id);
    ManifestAcceptedLater(t, t1, w, m);
    assert Children(t1.members, m.id) == Children(t.members, m.id);
  }

  lemma ManifestReplays(t: Tables, w: World, m: Manifest)
    requires ManifestStored(t, w, m)
    ensures PersistManifest(t, w, m) == Ok(t)
  {
  }

  // ----- every run -----

  /** The aggregate is stored whole and would be accepted again. */
  ghost predicate Stored(t: Tables, w: World, op: Op) {
    match op
    case OpCandidate(p, v) => CandidateStored(t, w, p, v)
    case OpArtefact(a) => ArtefactStored(t, a)
    case OpEvidence(e) => EvidenceStored(t, w, e)
    case OpManifest(m) => ManifestStored(t, w, m)
  }

  lemma AttemptKeeps(t: Tables, w: World, op: Op)
    requires Attempted(t, w, op).Ok? && Good(t, w) && WellFormed(op)
    ensures Good(Attempted(t, w, op).value, w) && Evolves(t, Attempted(t, w, op).value)
    ensures Stored(Attempted(t, w, op).value, w, op)
  {
    hide Good, Evolves, PersistCandidate, PersistArtefact, PersistEvidence, PersistManifest, CandidateStored,
         ArtefactStored, EvidenceStored, ManifestStored;
    match op
    case OpCandidate(p, v) => CandidateKeeps(t, w, p, v); CandidateReadsBack(t, w, p, v);
    case OpArtefact(a) => ArtefactKeeps(t, w, a); ArtefactAdds(t, a);
    case OpEvidence(e) => EvidenceKeeps(t, w, e); EvidenceReadsBack(t, w, e);
    case OpManifest(m) => ManifestKeeps(t, w, m); ManifestReadsBack(t, w, m);
  }

  lemma {:induction false} RunEvolves(t: Tables, w: World, ops: seq<Op>)
    requires Good(t, w) && forall i :: 0 <= i < |ops| ==> WellFormed(ops[i])
    ensures Good(Run(t, w, ops), w) && Evolves(t, Run(t, w, ops))
  {
    hide Good, Evolves, Attempted, WellFormed, Stored;
    if ops == [] {
      EvolvesReflexive(t);
    } else {
      var before := Run(t, w, ops[..|ops| - 1]);
      RunEvolves(t, w, ops[..|ops| - 1]);
      if Attempted(before, w, ops[|ops| - 1]).Ok? {
        AttemptKeeps(before, w, ops[|ops| - 1]);
        EvolvesTransitive(t, before, Run(t, w, ops));
      }
    }
  }

  lemma EmptyGood(w: World)
    ensures Good(Empty(), w)
  {
  }

  lemma StoredStays(t: Tables, t1: Tables, w: World, op: Op)
    requires Stored(t, w, op) && Evolves(t, t1) && NoOrphans(t1)
    ensures Stored(t1, w, op)
  {
    hide Evolves, NoOrphans, CandidateStored, ArtefactStored, EvidenceStored, ManifestStored;
    match op
    case OpCandidate(p, v) => CandidateStays(t, t1, w, p, v);
    case OpArtefact(a) => EvolvesTables(t, t1); ArtefactStays(t, t1, a);
    case OpEvidence(e) => EvidenceStays(t, t1, w, e);
    case OpManifest(m) => ManifestStays(t, t1, w, m);
  }

  lemma EvolvesTables(t: Tables, t1: Tables)
    requires Evolves(t, t1)
    ensures Submap(t.artefacts, t1.artefacts) && Submap(t.versions, t1.versions) && Submap(t.evidence, t1.evidence)
  {
  }

  lemma StoredReplays(t: Tables, w: World, op: Op)
    requires Stored(t, w, op)
    ensures Attempted(t, w, op) == Ok(t)
  {
    hide PersistCandidate, PersistArtefact, PersistEvidence, PersistManifest, CandidateStored, ArtefactStored,
         EvidenceStored, ManifestStored;
    match op
    case OpCandidate(p, v) => CandidateReplays(t, w, p, v);
    case OpArtefact(a) => ArtefactReplays(t, a);
    case OpEvidence(e) => EvidenceReplays(t, w, e);
    case OpManifest(m) => ManifestReplays(t, w, m);
  }

  /** Over any run, stored rows and the children of stored parents never change, and every lineage stays sound. */
  lemma NothingRewritten(w: World, ops: seq<Op>, more: seq<Op>)
    requires forall i :: 0 <= i < |ops| ==> WellFormed(ops[i])
    requires forall i :: 0 <= i < |more| ==> WellFormed(more[i])
    ensures var t := Run(Empty(), w, ops);
            Good(t, w) && Evolves(t, Run(t, w, more))
  {
    hide Good, Evolves, Run, WellFormed;
    EmptyGood(w);
    RunEvolves(Empty(), w, ops);
    RunEvolves(Run(Empty(), w, ops), w, more);
  }

  /**
   A persist that succeeded is stored exactly as it came, still is after any further run, and
   persisting it again there succeeds and changes nothing.
   */
  lemma SuccessReadsBackAndReplays(w: World, ops: seq<Op>, op: Op, more: seq<Op>)
    requires forall i :: 0 <= i < |ops| ==> WellFormed(ops[i])
    requires forall i :: 0 <= i < |more| ==> WellFormed(more[i])
    requires WellFormed(op) && Attempted(Run(Empty(), w, ops), w, op).Ok?
    ensures var t := Run(Attempted(Run(Empty(), w, ops), w, op).value, w, more);
            Stored(t, w, op) && Attempted(t, w, op) == Ok(t)
  {
    hide Evolves, Run, WellFormed, Attempted, Stored, CandidatesGood, LineagesGood, EvidencesGood, NoOrphans;
    EmptyGood(w);
    RunEvolves(Empty(), w, ops);
    var t0 := Run(Empty(), w, ops);
    AttemptKeeps(t0, w, op);
    var t1 := Attempted(t0, w, op).value;
    RunEvolves(t1, w, more);
    StoredStays(t1, Run(t1, w, more), w, op);
    StoredReplays(Run(t1, w, more), w, op);
  }
}
