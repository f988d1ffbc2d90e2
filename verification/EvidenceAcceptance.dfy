/**
 When a persist is accepted: the exact condition for each kind of aggregate, told of its own
 fields and the rows already stored.
 */
module EvidenceAcceptance {
  import opened Prelude
  import opened EvidenceTables
  import opened EvidencePersistence

  // ----- collections -----

  /** The children are these rows and no others. */
  ghost predicate Exactly<K(!new), V(!new)>(children: map<K, V>, rows: seq<(K, V)>) {
    Holds(children, rows) && forall k :: k in children ==> exists i :: 0 <= i < |rows| && rows[i].0 == k
  }

  /** Rows of one key agree, and rows of different keys do not exclude each other. */
  ghost predicate Compatible<K(!new), V(!new)>(rows: seq<(K, V)>, excludes: (V, V) -> bool) {
    forall i, j :: 0 <= i < j < |rows| ==>
      if rows[i].0 == rows[j].0 then rows[i].1 == rows[j].1 else !excludes(rows[i].1, rows[j].1)
  }

  /** The uniqueness rule is that no stored row excludes the new one. */
  ghost predicate Excluding<K(!new), V(!new)>(clash: (map<K, V>, K, V) -> bool, excludes: (V, V) -> bool) {
    && (forall m, k, v :: clash(m, k, v) <==> exists s :: s in m && excludes(m[s], v))
    && (forall v, u :: excludes(v, u) <==> excludes(u, v))
  }

  lemma CollectionIs<K(!new), V(!new)>(children: map<K, V>, rows: seq<(K, V)>)
    ensures Exactly(children, rows) <==> children == Collection(rows) && Holds(children, rows)
  {
    hide Collection;
    forall k ensures k in Collection(rows) <==> exists i :: 0 <= i < |rows| && rows[i].0 == k
      ensures k in Collection(rows) ==> (k, Collection(rows)[k]) in rows
    {
      CollectedKeys(rows, k);
    }
  }

  /** Into an empty collection exactly compatible rows are accepted. */
  lemma {:induction false} NewRowsAcceptedIff<K(!new), V(!new)>(rows: seq<(K, V)>, clash: (map<K, V>, K, V) -> bool,
        excludes: (V, V) -> bool)
    requires Excluding(clash, excludes)
    ensures ConvergeAll(map[], rows, clash).Ok? <==> Compatible(rows, excludes)
  {
    hide Collection, Excluding;
    if rows != [] {
      var n := |rows| - 1;
      NewRowsAcceptedIff(rows[..n], clash, excludes);
      if Compatible(rows, excludes) { CompatibleFront(rows, excludes); }
      if Compatible(rows[..n], excludes) {
        ConvergeAllCollects(map[], rows[..n], clash);
        assert map[] + Collection(rows[..n]) == Collection(rows[..n]);
        CollectionIs(Collection(rows[..n]), rows[..n]);
        LastRowFits(rows, ConvergeAll(map[], rows[..n], clash).value, clash, excludes);
      }
    }
  }

  lemma CompatibleFront<K(!new), V(!new)>(rows: seq<(K, V)>, excludes: (V, V) -> bool)
    requires rows != [] && Compatible(rows, excludes)
    ensures Compatible(rows[..|rows| - 1], excludes)
  {
  }

  lemma LastRowFits<K(!new), V(!new)>(rows: seq<(K, V)>, before: map<K, V>, clash: (map<K, V>, K, V) -> bool,
        excludes: (V, V) -> bool)
    requires rows != [] && Excluding(clash, excludes) && Compatible(rows[..|rows| - 1], excludes)
    requires Exactly(before, rows[..|rows| - 1])
    ensures var last := rows[|rows| - 1];
            Converge(before, last.0, last.1, clash(before, last.0, last.1)).Ok? <==> Compatible(rows, excludes)
  {
    hide Exactly;
    var n := |rows| - 1;
    var front, last := rows[..n], rows[n];
    assert forall i :: 0 <= i < n ==> front[i] == rows[i];
    KeyAmong(before, front, last.0);
    if last.0 in before {
      var k :| 0 <= k < n && front[k].0 == last.0;
      FrontHeld(before, front, k);
      if before[last.0] == last.1 { RepeatedRow(rows, k, excludes, clash); }
    } else {
      forall i | 0 <= i < n ensures front[i].0 in before && before[front[i].0] == front[i].1 {
        FrontHeld(before, front, i);
      }
      forall s | s in before ensures exists i :: 0 <= i < n && front[i].0 == s { KeyAmong(before, front, s); }
    }
  }

  lemma KeyAmong<K(!new), V(!new)>(children: map<K, V>, rows: seq<(K, V)>, k: K)
    requires Exactly(children, rows)
    ensures k in children <==> exists i :: 0 <= i < |rows| && rows[i].0 == k
  {
  }

  lemma FrontHeld<K(!new), V(!new)>(children: map<K, V>, rows: seq<(K, V)>, i: nat)
    requires Exactly(children, rows) && i < |rows|
    ensures rows[i].0 in children && children[rows[i].0] == rows[i].1
  {
  }

  lemma RepeatedRow<K(!new), V(!new)>(rows: seq<(K, V)>, k: nat, excludes: (V, V) -> bool,
        clash: (map<K, V>, K, V) -> bool)
    requires rows != [] && k < |rows| - 1 && rows[k] == rows[|rows| - 1] && Excluding(clash, excludes)
    requires Compatible(rows[..|rows| - 1], excludes)
    ensures Compatible(rows, excludes)
  {
    var n := |rows| - 1;
    var front := rows[..n];
    forall i, j | 0 <= i < j < |rows|
      ensures if rows[i].0 == rows[j].0 then rows[i].1 == rows[j].1 else !excludes(rows[i].1, rows[j].1)
    {
      assert front[k] == rows[k];
      if j < n {
        assert front[i] == rows[i] && front[j] == rows[j];
      } else if i != k {
        assert front[i] == rows[i];
      }
    }
  }

  /** A stored parent is accepted with exactly its children, a new one with compatible ones. */
  lemma ChildrenAcceptedIff<K(!new), V(!new)>(table: map<Id, map<K, V>>, root: Id, rows: seq<(K, V)>,
        clash: (map<K, V>, K, V) -> bool, excludes: (V, V) -> bool)
    requires Excluding(clash, excludes)
    ensures ConvergeChildren(table, root, root in table, rows, clash).Ok? <==>
              if root in table then Exactly(table[root], rows) else Compatible(rows, excludes)
  {
    hide ConvergeAll, Collection, Excluding, Compatible, Exactly, Holds;
    if root in table {
      CollectionIs(table[root], rows);
      if Holds(table[root], rows) { ConvergeAllReplays(table[root], rows, clash); }
      if ConvergeAll(table[root], rows, clash).Ok? {
        ConvergeAllCollects(table[root], rows, clash);
        var c := Collection(rows);
        assert c + c == c;
      }
    } else {
      NewRowsAcceptedIff(rows, clash, excludes);
    }
  }

  predicate Never<V>(v: V, u: V) {
    false
  }

  predicate SameStream(v: Role, u: Role) {
    v == u && (v == StdoutRole || v == StderrRole)
  }

  predicate SameReference(v: CaseRow, u: CaseRow) {
    v.reference == u.reference
  }

  lemma Rules()
    ensures Excluding<string, string>(NeverClash, Never) && Excluding<int, ObservationRow>(NeverClash, Never)
    ensures Excluding<Id, ()>(NeverClash, Never)
    ensures Excluding(StreamTaken, SameStream) && Excluding(ReferenceTaken, SameReference)
  {
    ReferenceRule(ReferenceTaken, SameReference);
  }

  lemma ReferenceRule(clash: (map<int, CaseRow>, int, CaseRow) -> bool, excludes: (CaseRow, CaseRow) -> bool)
    requires forall m, k, v :: clash(m, k, v) == ReferenceTaken(m, k, v)
    requires forall v, u :: excludes(v, u) == SameReference(v, u)
    ensures Excluding(clash, excludes)
  {
    forall m: map<int, CaseRow>, k, v ensures clash(m, k, v) <==> exists s :: s in m && excludes(m[s], v) {
      if ReferenceTaken(m, k, v) {
        var s :| s in m && m[s].reference == v.reference;
        assert excludes(m[s], v);
      }
      if s :| s in m && excludes(m[s], v) { assert SameReference(m[s], v); }
    }
  }

  // ----- candidates -----

  /** The version is initial, or its parent is a stored initial version of the same run. */
  ghost predicate ParentAllows(t: Tables, v: Version) {
    v.parent.Some? ==>
      && v.parent.value in t.versions
      && t.versions[v.parent.value].level == 0 && t.versions[v.parent.value].run == v.run
  }

  /** Patch and version name each other and the same run, attempt and provenance. */
  ghost predicate Bound(p: Patch, v: Version) {
    v.patch == p.id && p.version == v.id && p.run == v.run && p.attempt == v.attempt && p.provenance == v.provenance
  }

  ghost predicate AttemptOfRun(w: World, attempt: Id, run: Id) {
    attempt in w.attempts && w.attempts[attempt] == run
  }

  /**
   A candidate is accepted exactly when patch and version belong together, in a known run and its
   attempt, under an allowed parent, and both are stored just as they are or both are new.
   */
  lemma CandidateAcceptedIff(t: Tables, w: World, p: Patch, v: Version)
    requires CandidatesGood(t) && NoOrphans(t)
    ensures PersistCandidate(t, w, p, v).Ok? <==>
              && Bound(p, v) && p.run in w.runs && AttemptOfRun(w, p.attempt, p.run) && ParentAllows(t, v)
              && if p.id in t.patches
                 then t.patches[p.id] == PatchRowOf(p) && v.id in t.versions && t.versions[v.id] == VersionRowOf(v)
                      && Exactly(t.files[p.id], p.files)
                 else v.id !in t.versions && Compatible(p.files, Never)
  {
    hide ConvergeChildren, Exactly, Compatible, Excluding, NoOrphans, CandidatesGood;
    Rules();
    RootsKept(t);
    ChildrenAcceptedIff(t.files, p.id, p.files, NeverClash, Never);
    TakenIff(t, v.id);
    if p.id in t.patches { PatchesBound(t, p.id); }
  }

  lemma RootsKept(t: Tables)
    requires NoOrphans(t)
    ensures forall id :: id in t.files <==> id in t.patches
    ensures forall id :: id in t.roles <==> id in t.evidence
    ensures forall id :: id in t.cases <==> id in t.evidence
    ensures forall id :: id in t.observations <==> id in t.evidence
    ensures forall id :: id in t.members <==> id in t.manifests
  {
  }

  lemma TakenIff(t: Tables, version: Id)
    requires CandidatesGood(t)
    ensures VersionTaken(t, version) <==> version in t.versions
  {
    if version in t.versions { assert VersionBound(t, version); }
    if VersionTaken(t, version) {
      var p :| p in t.patches && t.patches[p].version == version;
      assert PatchBound(t, p);
    }
  }

  lemma PatchesBound(t: Tables, p: Id)
    requires CandidatesGood(t) && p in t.patches
    ensures t.patches[p].version in t.versions && t.versions[t.patches[p].version].patch == p
  {
    assert PatchBound(t, p);
  }

  /** Why a candidate is refused, by the first of the reasons that applies. */
  lemma CandidateRefused(t: Tables, w: World, p: Patch, v: Version)
    ensures var r := PersistCandidate(t, w, p, v);
            r.Err? ==>
              r.error == if !Bound(p, v) then ValueError
                         else if p.run !in w.runs || p.attempt !in w.attempts then UnresolvableError
                         else if w.attempts[p.attempt] != p.run then ValueError
                         else if v.parent.Some? && v.parent.value !in t.versions then UnresolvableError
                         else if !ParentAllows(t, v) then ValueError
                         else ConflictError
  {
    hide ConvergeChildren;
    FilesConflict(t.files, p.id, p.id in t.patches, p.files);
  }

  lemma FilesConflict(files: map<Id, map<string, string>>, root: Id, existed: bool, rows: seq<(string, string)>)
    ensures var r := ConvergeChildren(files, root, existed, rows, NeverClash); r.Err? ==> r.error == ConflictError
  {
    hide ConvergeAll;
    RowsConflict(Children(files, root), rows, NeverClash);
  }

  lemma {:induction false} RowsConflict<K(!new), V(!new)>(children: map<K, V>, rows: seq<(K, V)>,
        clash: (map<K, V>, K, V) -> bool)
    ensures ConvergeAll(children, rows, clash).Err? ==> ConvergeAll(children, rows, clash).error == ConflictError
  {
    if rows != [] { RowsConflict(children, rows[..|rows| - 1], clash); }
  }

  // ----- artefacts -----

  /** The named candidate and execution are stored, and the execution is one of the candidate. */
  ghost predicate LinksAllow(t: Tables, a: Artefact) {
    && (a.row.candidate.Some? ==> a.row.candidate.value in t.versions)
    && (a.row.evidence.Some? ==> a.row.evidence.value in t.evidence)
    && (a.row.candidate.Some? && a.row.evidence.Some? ==>
          t.evidence[a.row.evidence.value].candidate == a.row.candidate.value)
  }

  lemma ArtefactAcceptedIff(t: Tables, a: Artefact)
    ensures PersistArtefact(t, a).Ok? <==>
              LinksAllow(t, a) && (a.id in t.artefacts ==> t.artefacts[a.id] == a.row)
  {
  }

  /** Why an artefact is refused: it names nothing stored, another candidate's execution, or is stored otherwise. */
  lemma ArtefactRefused(t: Tables, a: Artefact)
    ensures var r := PersistArtefact(t, a);
            r.Err? ==>
              r.error == if (a.row.candidate.Some? && a.row.candidate.value !in t.versions)
                            || (a.row.evidence.Some? && a.row.evidence.value !in t.evidence) then UnresolvableError
                         else if !LinksAllow(t, a) then ValueError
                         else ConflictError
  {
  }

  /** Equal identities among the embedded artefacts carry equal rows. */
  ghost predicate ArtefactsAgree(pairs: seq<(Artefact, Role)>) {
    forall i, j :: 0 <= i < j < |pairs| && pairs[i].0.id == pairs[j].0.id ==> pairs[i].0.row == pairs[j].0.row
  }

  ghost predicate EachAcceptable(t: Tables, pairs: seq<(Artefact, Role)>) {
    forall i :: 0 <= i < |pairs| ==> PersistArtefact(t, pairs[i].0).Ok?
  }

  lemma {:induction false} ArtefactsAcceptedIff(t: Tables, pairs: seq<(Artefact, Role)>)
    ensures PersistArtefacts(t, pairs).Ok? <==> EachAcceptable(t, pairs) && ArtefactsAgree(pairs)
  {
    hide PersistArtefact, ArtefactStored;
    if pairs != [] {
      var n := |pairs| - 1;
      var front := pairs[..n];
      assert forall i :: 0 <= i < n ==> front[i] == pairs[i];
      ArtefactsAcceptedIff(t, front);
      if PersistArtefacts(t, front).Ok? { LastArtefact(t, pairs); }
    }
  }

  lemma LastArtefact(t: Tables, pairs: seq<(Artefact, Role)>)
    requires pairs != [] && PersistArtefacts(t, pairs[..|pairs| - 1]).Ok?
    ensures var n := |pairs| - 1;
            PersistArtefact(PersistArtefacts(t, pairs[..n]).value, pairs[n].0).Ok? <==>
              && PersistArtefact(t, pairs[n].0).Ok?
              && forall i :: 0 <= i < n && pairs[i].0.id == pairs[n].0.id ==> pairs[i].0.row == pairs[n].0.row
  {
    hide PersistArtefacts;
    var n := |pairs| - 1;
    var front := pairs[..n];
    var t1 := PersistArtefacts(t, front).value;
    ArtefactsAdd(t, front);
    NewArtefacts(t, front);
    forall i | 0 <= i < n
      ensures pairs[i].0.id in t1.artefacts && t1.artefacts[pairs[i].0.id] == pairs[i].0.row
    {
      assert front[i] == pairs[i] && ArtefactStored(t1, front[i].0);
    }
    if pairs[n].0.id in t1.artefacts && pairs[n].0.id !in t.artefacts {
      var i :| 0 <= i < n && front[i].0.id == pairs[n].0.id;
      assert front[i] == pairs[i];
    }
  }

  lemma {:induction false} NewArtefacts(t: Tables, pairs: seq<(Artefact, Role)>)
    requires PersistArtefacts(t, pairs).Ok?
    ensures forall a :: a in PersistArtefacts(t, pairs).value.artefacts && a !in t.artefacts ==>
              exists i :: 0 <= i < |pairs| && pairs[i].0.id == a
  {
    if pairs != [] {
      var n := |pairs| - 1;
      NewArtefacts(t, pairs[..n]);
      assert forall i :: 0 <= i < n ==> pairs[..n][i] == pairs[i];
    }
  }

  // ----- execution evidence -----

  /** The execution ran an attempt of its stored candidate's run, and names that run or none. */
  ghost predicate RunAllows(t: Tables, w: World, e: Evidence) {
    && e.row.candidate in t.versions
    && AttemptOfRun(w, e.row.attempt, t.versions[e.row.candidate].run)
    && (e.row.run.Some? ==> e.row.run.value in w.runs && e.row.run.value == t.versions[e.row.candidate].run)
  }

  /** Embedded artefacts name this execution and its candidate, or none, and are new or stored as they are. */
  ghost predicate Embeddable(t: Tables, e: Evidence) {
    && ArtefactsAgree(e.artefacts)
    && forall i :: 0 <= i < |e.artefacts| ==> EmbeddedFits(t, e, e.artefacts[i].0)
  }

  ghost predicate EmbeddedFits(t: Tables, e: Evidence, a: Artefact) {
    && (a.row.evidence.Some? ==> a.row.evidence.value == e.id)
    && (a.row.candidate.Some? ==> a.row.candidate.value == e.row.candidate)
    && (a.id in t.artefacts ==> t.artefacts[a.id] == a.row)
  }

  /** An artefact has one role, and each stream one artefact. */
  ghost predicate RolesFit(pairs: seq<(Artefact, Role)>) {
    forall i, j :: 0 <= i < j < |pairs| ==>
      if pairs[i].0.id == pairs[j].0.id then pairs[i].1 == pairs[j].1
      else !(pairs[i].1 == pairs[j].1 && (pairs[i].1 == StdoutRole || pairs[i].1 == StderrRole))
  }

  ghost predicate DistinctReferences(cases: seq<CaseRow>) {
    forall i, j :: 0 <= i < j < |cases| ==> cases[i].reference != cases[j].reference
  }

  /** The execution is stored with these very children. */
  ghost predicate EvidenceSame(t: Tables, e: Evidence)
    requires NoOrphans(t)
  {
    && e.id in t.evidence && t.evidence[e.id] == e.row
    && Exactly(t.roles[e.id], RoleRows(e.artefacts)) && Exactly(t.cases[e.id], Numbered(e.cases))
    && Exactly(t.observations[e.id], Numbered(e.observations))
  }

  /**
   An execution is accepted exactly when it fits its run, a reported breach has a breached
   observation, its artefacts can be embedded, and it is stored just as it is or is new, with one
   role for each artefact, one artefact for each stream and one case for each test.
   */
  lemma EvidenceAcceptedIff(t: Tables, w: World, e: Evidence)
    requires NoOrphans(t)
    ensures PersistEvidence(t, w, e).Ok? <==>
              && (e.resourceBreach ==> exists i :: 0 <= i < |e.observations| && e.observations[i].breached)
              && RunAllows(t, w, e) && Embeddable(t, e)
              && if e.id in t.evidence then EvidenceSame(t, e)
                 else RolesFit(e.artefacts) && DistinctReferences(e.cases)
  {
    hide ConvergeChildren, PersistArtefacts, Exactly, RolesFit, DistinctReferences, NoOrphans, Embeddable, RunAllows,
         EmbeddedRefusal, SameCollections, EvidenceRefusal;
    NotRefusedIff(t, w, e);
    CollectionsAcceptedIff(t, e);
    RootsKept(t);
    if EvidenceSame(t, e) { SameCollectionsExactly(t, e); }
    if e.id in t.evidence && t.evidence[e.id] == e.row { assert t.evidence[e.id := e.row] == t.evidence; }
    if RunAllows(t, w, e) {
      CandidateStoredFor(t, w, e);
      EmbeddableIff(t, e);
    }
  }

  /** A breach is reported that no observation shows. */
  ghost predicate UnseenBreach(e: Evidence) {
    e.resourceBreach && forall i :: 0 <= i < |e.observations| ==> !e.observations[i].breached
  }

  /** Why an execution is refused before anything is written, by the first of the reasons that applies. */
  lemma EvidenceRefused(t: Tables, w: World, e: Evidence)
    requires UnseenBreach(e) || !RunAllows(t, w, e)
    ensures PersistEvidence(t, w, e) ==
            Err(if UnseenBreach(e) then ValueError
                else if (e.row.run.Some? && e.row.run.value !in w.runs) || e.row.candidate !in t.versions
                then UnresolvableError
                else if e.row.run.Some? && t.versions[e.row.candidate].run != e.row.run.value then ValueError
                else if e.row.attempt !in w.attempts then UnresolvableError
                else ValueError)
  {
    hide EmbeddedRefusal;
  }

  lemma NotRefusedIff(t: Tables, w: World, e: Evidence)
    ensures EvidenceRefusal(t, w, e).None? <==>
              && (e.resourceBreach ==> exists i :: 0 <= i < |e.observations| && e.observations[i].breached)
              && RunAllows(t, w, e) && EmbeddedRefusal(t, e).None?
  {
    hide EmbeddedRefusal;
  }

  lemma CandidateStoredFor(t: Tables, w: World, e: Evidence)
    requires RunAllows(t, w, e)
    ensures e.row.candidate in t.versions
  {
  }

  lemma EmbeddableIff(t: Tables, e: Evidence)
    requires e.row.candidate in t.versions
    ensures EmbeddedRefusal(t, e).None? && PersistArtefacts(t.(evidence := t.evidence[e.id := e.row]), e.artefacts).Ok?
            <==> Embeddable(t, e)
  {
    hide PersistArtefacts, PersistArtefact, ArtefactsAgree, ForeignLink, EmbeddedFits;
    var t1 := t.(evidence := t.evidence[e.id := e.row]);
    ArtefactsAcceptedIff(t1, e.artefacts);
    forall i | 0 <= i < |e.artefacts|
      ensures !ForeignLink(t, e, e.artefacts[i].0) && PersistArtefact(t1, e.artefacts[i].0).Ok? <==>
              EmbeddedFits(t, e, e.artefacts[i].0)
    {
      EmbeddedFitsIff(t, e, e.artefacts[i].0);
    }
  }

  lemma EmbeddedFitsIff(t: Tables, e: Evidence, a: Artefact)
    requires e.row.candidate in t.versions
    ensures !ForeignLink(t, e, a) && PersistArtefact(t.(evidence := t.evidence[e.id := e.row]), a).Ok? <==>
            EmbeddedFits(t, e, a)
  {
    hide PersistArtefact;
    ArtefactAcceptedIff(t.(evidence := t.evidence[e.id := e.row]), a);
  }

  lemma SameCollectionsExactly(t: Tables, e: Evidence)
    requires NoOrphans(t) && EvidenceSame(t, e)
    ensures SameCollections(t, e)
  {
    hide Exactly, Collection, RoleRows, Numbered;
    CollectionIs(t.roles[e.id], RoleRows(e.artefacts));
    CollectionIs(t.cases[e.id], Numbered(e.cases));
    CollectionIs(t.observations[e.id], Numbered(e.observations));
  }

  lemma CollectionsAcceptedIff(t: Tables, e: Evidence)
    requires NoOrphans(t)
    ensures var existed := e.id in t.evidence;
            && ConvergeChildren(t.roles, e.id, existed, RoleRows(e.artefacts), StreamTaken).Ok?
            && ConvergeChildren(t.cases, e.id, existed, Numbered(e.cases), ReferenceTaken).Ok?
            && ConvergeChildren(t.observations, e.id, existed, Numbered(e.observations), NeverClash).Ok? <==>
              if existed
              then Exactly(t.roles[e.id], RoleRows(e.artefacts)) && Exactly(t.cases[e.id], Numbered(e.cases))
                   && Exactly(t.observations[e.id], Numbered(e.observations))
              else RolesFit(e.artefacts) && DistinctReferences(e.cases)
  {
    hide ConvergeChildren, Exactly, Compatible, Excluding, RolesFit, DistinctReferences, NoOrphans;
    Rules();
    RootsKept(t);
    ChildrenAcceptedIff(t.roles, e.id, RoleRows(e.artefacts), StreamTaken, SameStream);
    ChildrenAcceptedIff(t.cases, e.id, Numbered(e.cases), ReferenceTaken, SameReference);
    ChildrenAcceptedIff(t.observations, e.id, Numbered(e.observations), NeverClash, Never);
    CompatibleRoles(e.artefacts);
    CompatibleNumbers(e.cases, SameReference);
    CompatibleNumbers(e.observations, Never);
    DistinctIff(e.cases);
  }

  lemma CompatibleRoles(pairs: seq<(Artefact, Role)>)
    ensures Compatible(RoleRows(pairs), SameStream) <==> RolesFit(pairs)
  {
    var rows := RoleRows(pairs);
    if RolesFit(pairs) {
      forall i, j | 0 <= i < j < |rows|
        ensures if rows[i].0 == rows[j].0 then rows[i].1 == rows[j].1 else !SameStream(rows[i].1, rows[j].1)
      {
        assert rows[i] == (pairs[i].0.id, pairs[i].1) && rows[j] == (pairs[j].0.id, pairs[j].1);
      }
    } else {
      var i, j :| 0 <= i < j < |pairs| &&
        !(if pairs[i].0.id == pairs[j].0.id then pairs[i].1 == pairs[j].1
          else !(pairs[i].1 == pairs[j].1 && (pairs[i].1 == StdoutRole || pairs[i].1 == StderrRole)));
      assert rows[i] == (pairs[i].0.id, pairs[i].1) && rows[j] == (pairs[j].0.id, pairs[j].1);
    }
  }

  /** Numbers never repeat, so only the rule between the rows matters. */
  lemma CompatibleNumbers<V(!new)>(rows: seq<V>, excludes: (V, V) -> bool)
    ensures Compatible(Numbered(rows), excludes) <==> forall i, j :: 0 <= i < j < |rows| ==> !excludes(rows[i], rows[j])
  {
    var numbered := Numbered(rows);
    if Compatible(numbered, excludes) {
      forall i, j | 0 <= i < j < |rows| ensures !excludes(rows[i], rows[j]) {
        assert numbered[i] == (i + 1, rows[i]) && numbered[j] == (j + 1, rows[j]);
      }
    }
  }

  lemma DistinctIff(cases: seq<CaseRow>)
    ensures DistinctReferences(cases) <==> forall i, j :: 0 <= i < j < |cases| ==> !SameReference(cases[i], cases[j])
  {
  }

  // ----- manifests -----

  /** What the manifest names is stored and belongs together. */
  ghost predicate NamesAgree(t: Tables, w: World, r: ManifestRow) {
    && (r.candidate.Some? ==> r.candidate.value in t.versions)
    && (r.evidence.Some? ==> r.evidence.value in t.evidence)
    && (r.attempt.Some? ==> r.attempt.value in w.attempts)
    && (r.evidence.Some? && r.candidate.Some? ==> t.evidence[r.evidence.value].candidate == r.candidate.value)
    && (r.evidence.Some? && r.attempt.Some? ==> t.evidence[r.evidence.value].attempt == r.attempt.value)
    && (r.evidence.Some? ==> r.phase == Some(t.evidence[r.evidence.value].phase))
    && (r.candidate.Some? && r.attempt.Some? ==>
          w.attempts[r.attempt.value] == t.versions[r.candidate.value].run)
  }

  /**
   A manifest is accepted exactly when what it names agrees, its members are distinct and stored
   just as given, and it is new or stored with this row and these members.
   */
  lemma ManifestAcceptedIff(t: Tables, w: World, m: Manifest)
    requires NoOrphans(t)
    ensures PersistManifest(t, w, m).Ok? <==>
              && NamesAgree(t, w, m.row)
              && (forall i, j :: 0 <= i < j < |m.members| ==> m.members[i].id != m.members[j].id)
              && MembersStored(t, m.members)
              && (m.id in t.manifests ==>
                    && t.manifests[m.id] == m.row
                    && forall id :: id in t.members[m.id] <==>
                         exists i :: 0 <= i < |m.members| && m.members[i].id == id)
  {
    hide ConvergeAll, Collection, MembersRefusal, MembersStored, NoOrphans, NamesAgree;
    RootsKept(t);
    ManifestNotRefusedIff(t, w, m);
    MemberKeys(m.members);
    if m.id !in t.manifests { NewMembers(m.members); }
  }

  lemma ManifestNotRefusedIff(t: Tables, w: World, m: Manifest)
    ensures ManifestRefusal(t, w, m).None? <==>
              && NamesAgree(t, w, m.row) && MembersStored(t, m.members)
              && (forall i, j :: 0 <= i < j < |m.members| ==> m.members[i].id != m.members[j].id)
  {
    hide MembersRefusal, MembersStored;
    MembersAccepted(t, m.members);
  }

  lemma MemberKeys(members: seq<Artefact>)
    ensures forall id :: id in Collection(MemberRows(members)) <==>
              exists i :: 0 <= i < |members| && members[i].id == id
  {
    hide Collection;
    var rows := MemberRows(members);
    forall id
      ensures id in Collection(rows) <==> exists i :: 0 <= i < |members| && members[i].id == id
    {
      CollectedKeys(rows, id);
      if i :| 0 <= i < |members| && members[i].id == id { assert rows[i].0 == id; }
    }
  }

  lemma NewMembers(members: seq<Artefact>)
    ensures ConvergeAll<Id, ()>(map[], MemberRows(members), NeverClash).Ok?
  {
    hide ConvergeAll, Excluding;
    Rules();
    NewRowsAcceptedIff(MemberRows(members), NeverClash, Never);
  }

  /** Why a manifest is refused before anything is written: something unknown, or something that does not agree. */
  lemma ManifestRefused(t: Tables, w: World, m: Manifest)
    requires !NamesAgree(t, w, m.row)
    ensures var r := m.row;
            PersistManifest(t, w, m) ==
            Err(if (r.candidate.Some? && r.candidate.value !in t.versions)
                   || (r.evidence.Some? && r.evidence.value !in t.evidence)
                   || (r.attempt.Some? && r.attempt.value !in w.attempts)
                then UnresolvableError else ValueError)
  {
    hide MembersRefusal;
  }
}
