/**
 What the links between stored aggregates promise: an artefact, a manifest and an execution
 that name each other describe the same candidate, attempt, phase and run, and every role
 and member names a stored artefact.
 */
module EvidenceLinks {
  import opened Prelude
  import opened EvidenceTables
  import opened EvidencePersistence

  /** An artefact that names a candidate and an execution names the execution's candidate. */
  ghost predicate ArtefactLinked(t: Tables, row: ArtefactRow) {
    && (row.candidate.Some? ==> row.candidate.value in t.versions)
    && (row.evidence.Some? ==> row.evidence.value in t.evidence)
    && (row.candidate.Some? && row.evidence.Some? ==> t.evidence[row.evidence.value].candidate == row.candidate.value)
  }

  /** A manifest's candidate, execution, attempt and phase describe one run. */
  ghost predicate ManifestLinked(t: Tables, w: World, row: ManifestRow) {
    && (row.candidate.Some? ==> row.candidate.value in t.versions)
    && (row.evidence.Some? ==> row.evidence.value in t.evidence)
    && (row.attempt.Some? ==> row.attempt.value in w.attempts)
    && (row.candidate.Some? && row.evidence.Some? ==> t.evidence[row.evidence.value].candidate == row.candidate.value)
    && (row.attempt.Some? && row.evidence.Some? ==> t.evidence[row.evidence.value].attempt == row.attempt.value)
    && (row.evidence.Some? ==> row.phase == Some(t.evidence[row.evidence.value].phase))
    && (row.candidate.Some? && row.attempt.Some? ==>
          t.versions[row.candidate.value].run == w.attempts[row.attempt.value])
  }

  ghost predicate NamesArtefacts<V>(children: map<Id, V>, artefacts: map<Id, ArtefactRow>) {
    children.Keys <= artefacts.Keys
  }

  ghost predicate ArtefactsLinked(t: Tables) {
    forall a :: a in t.artefacts ==> ArtefactLinked(t, t.artefacts[a])
  }

  ghost predicate ManifestsLinked(t: Tables, w: World) {
    forall m :: m in t.manifests ==> ManifestLinked(t, w, t.manifests[m])
  }

  ghost predicate RolesNamed(t: Tables) {
    forall e :: e in t.evidence ==> NamesArtefacts(Children(t.roles, e), t.artefacts)
  }

  ghost predicate MembersNamed(t: Tables) {
    forall m :: m in t.manifests ==> NamesArtefacts(Children(t.members, m), t.artefacts)
  }

  ghost predicate Linked(t: Tables, w: World) {
    ArtefactsLinked(t) && ManifestsLinked(t, w) && RolesNamed(t) && MembersNamed(t)
  }

  // ----- stored rows stay linked -----

  lemma ManifestsStay(t: Tables, t1: Tables, w: World, m: Id)
    requires ManifestsLinked(t, w) && Evolves(t, t1) && m in t.manifests
    ensures m in t1.manifests && ManifestLinked(t1, w, t1.manifests[m])
  {
    hide SameChildren;
    assert ManifestLinked(t, w, t.manifests[m]);
  }

  lemma ArtefactStaysLinked(t: Tables, t1: Tables, row: ArtefactRow)
    requires ArtefactLinked(t, row) && Submap(t.versions, t1.versions) && Submap(t.evidence, t1.evidence)
    ensures ArtefactLinked(t1, row)
  {
  }

  lemma ChildrenStayNamed<V(!new)>(roots: set<Id>, a: map<Id, map<Id, V>>, b: map<Id, map<Id, V>>, root: Id,
        before: map<Id, ArtefactRow>, after: map<Id, ArtefactRow>)
    requires SameChildren(roots, a, b) && root in roots && Submap(before, after)
    requires NamesArtefacts(Children(a, root), before)
    ensures NamesArtefacts(Children(b, root), after)
  {
    assert Children(b, root) == Children(a, root);
  }

  lemma {:induction false} CollectionKeys<V(!new)>(rows: seq<(Id, V)>, named: set<Id>)
    requires forall i :: 0 <= i < |rows| ==> rows[i].0 in named
    ensures Collection(rows).Keys <= named
  {
    if rows != [] { CollectionKeys(rows[..|rows| - 1], named); }
  }

  // ----- each aggregate -----

  lemma RefusedArtefactsOnly(t: Tables, a: Artefact)
    requires ArtefactRefusal(t, a).None?
    ensures ArtefactLinked(t, a.row)
  {
  }

  lemma ArtefactKeepsLinks(t: Tables, a: Artefact)
    requires PersistArtefact(t, a).Ok? && ArtefactsLinked(t)
    ensures ArtefactsLinked(PersistArtefact(t, a).value)
  {
    RefusedArtefactsOnly(t, a);
    var t1 := PersistArtefact(t, a).value;
    forall k | k in t1.artefacts ensures ArtefactLinked(t1, t1.artefacts[k]) {
      assert k in t.artefacts ==> ArtefactLinked(t, t.artefacts[k]);
    }
  }

  lemma {:induction false} ArtefactsKeepLinks(t: Tables, pairs: seq<(Artefact, Role)>)
    requires PersistArtefacts(t, pairs).Ok? && ArtefactsLinked(t)
    ensures ArtefactsLinked(PersistArtefacts(t, pairs).value)
  {
    hide PersistArtefact, ArtefactsLinked;
    if pairs != [] {
      ArtefactsKeepLinks(t, pairs[..|pairs| - 1]);
      ArtefactKeepsLinks(PersistArtefacts(t, pairs[..|pairs| - 1]).value, pairs[|pairs| - 1].0);
    }
  }

  lemma ArtefactsLinkedIn(t: Tables, t1: Tables)
    requires ArtefactsLinked(t) && Submap(t.versions, t1.versions) && Submap(t.evidence, t1.evidence)
    requires t1.artefacts == t.artefacts
    ensures ArtefactsLinked(t1)
  {
    hide ArtefactLinked;
    forall a | a in t1.artefacts ensures ArtefactLinked(t1, t1.artefacts[a]) {
      ArtefactStaysLinked(t, t1, t.artefacts[a]);
    }
  }

  lemma AcceptedManifestLinked(t: Tables, w: World, m: Manifest)
    requires ManifestRefusal(t, w, m).None?
    ensures ManifestLinked(t, w, m.row)
  {
    hide MembersRefusal, Duplicates;
  }

  lemma StoredRolesNamed(t: Tables, e: Evidence)
    requires ChildStored(t.roles, e.id, RoleRows(e.artefacts)) && ArtefactsStored(t, e.artefacts)
    ensures NamesArtefacts(Children(t.roles, e.id), t.artefacts)
  {
    hide Holds;
    forall i | 0 <= i < |e.artefacts| ensures RoleRows(e.artefacts)[i].0 in t.artefacts.Keys {
      assert ArtefactStored(t, e.artefacts[i].0);
    }
    CollectionKeys(RoleRows(e.artefacts), t.artefacts.Keys);
  }

  lemma StoredMembersNamed(t: Tables, w: World, m: Manifest)
    requires ManifestStored(t, w, m)
    ensures NamesArtefacts(Children(t.members, m.id), t.artefacts)
  {
    MembersAccepted(t, m.members);
    ManifestMembers(t, w, m);
    CollectionKeys(MemberRows(m.members), t.artefacts.Keys);
  }

  lemma ManifestMembers(t: Tables, w: World, m: Manifest)
    requires ManifestRefusal(t, w, m).None?
    ensures MembersRefusal(t, m.members).None?
  {
    hide Duplicates;
  }

  /** What the links of the new tables rest on: old rows carried over, and at most one new root. */
  lemma LinksCarried(t: Tables, t1: Tables, w: World, evidence: Id, manifest: Id)
    requires Linked(t, w) && Evolves(t, t1) && ArtefactsLinked(t1)
    requires t1.evidence.Keys <= t.evidence.Keys + {evidence} && t1.manifests.Keys <= t.manifests.Keys + {manifest}
    requires evidence in t1.evidence && evidence !in t.evidence ==>
              NamesArtefacts(Children(t1.roles, evidence), t1.artefacts)
    requires manifest in t1.manifests && manifest !in t.manifests ==>
               NamesArtefacts(Children(t1.members, manifest), t1.artefacts) &&
               ManifestLinked(t1, w, t1.manifests[manifest])
    ensures Linked(t1, w)
  {
    hide SameChildren, ArtefactsLinked, ManifestLinked, NamesArtefacts, Submap;
    forall e | e in t1.evidence ensures NamesArtefacts(Children(t1.roles, e), t1.artefacts) {
      if e in t.evidence { ChildrenStayNamed(t.evidence.Keys, t.roles, t1.roles, e, t.artefacts, t1.artefacts); }
    }
    forall m | m in t1.manifests
      ensures NamesArtefacts(Children(t1.members, m), t1.artefacts) && ManifestLinked(t1, w, t1.manifests[m])
    {
      if m in t.manifests {
        ChildrenStayNamed(t.manifests.Keys, t.members, t1.members, m, t.artefacts, t1.artefacts);
        ManifestsStay(t, t1, w, m);
      }
    }
  }

  lemma CandidateLinks(t: Tables, w: World, p: Patch, v: Version)
    requires PersistCandidate(t, w, p, v).Ok? && Good(t, w) && Linked(t, w) && LineageShape(v)
    ensures Linked(PersistCandidate(t, w, p, v).value, w)
  {
    hide PersistCandidate, Good, Linked, Submap, SameChildren, LineageShape;
    var t1 := PersistCandidate(t, w, p, v).value;
    CandidateKeeps(t, w, p, v);
    CandidateUntouched(t, w, p, v);
    LinkedArtefacts(t, w);
    ArtefactsLinkedIn(t, t1);
    LinksCarried(t, t1, w, "", "");
  }

  lemma LinkedArtefacts(t: Tables, w: World)
    requires Linked(t, w)
    ensures ArtefactsLinked(t)
  {
  }

  lemma CandidateUntouched(t: Tables, w: World, p: Patch, v: Version)
    requires PersistCandidate(t, w, p, v).Ok?
    ensures var t1 := PersistCandidate(t, w, p, v).value;
            t1.artefacts == t.artefacts && t1.evidence == t.evidence && t1.manifests == t.manifests
  {
    hide Converge, ConvergeChildren, CandidateRefusal, VersionTaken;
  }

  lemma ArtefactLinks(t: Tables, w: World, a: Artefact)
    requires PersistArtefact(t, a).Ok? && Good(t, w) && Linked(t, w)
    ensures Linked(PersistArtefact(t, a).value, w)
  {
    hide PersistArtefact, Good, Linked, Submap, SameChildren, ArtefactStored, Evolves;
    LinkedArtefacts(t, w);
    ArtefactKeepsLinks(t, a);
    ArtefactKeeps(t, w, a);
    ArtefactAdds(t, a);
    LinksCarried(t, PersistArtefact(t, a).value, w, "", "");
  }

  lemma EvidenceArtefactsLinked(t: Tables, w: World, e: Evidence)
    requires PersistEvidence(t, w, e).Ok? && ArtefactsLinked(t)
    ensures ArtefactsLinked(PersistEvidence(t, w, e).value)
  {
    hide PersistEvidence, Converge, ConvergeChildren, PersistArtefacts, EvidenceRefusal, ArtefactsLinked, RoleRows,
         Numbered, ArtefactsStored, Submap;
    EvidenceParts(t, w, e);
    ConvergeAdds(t.evidence, e.id, e.row, false);
    SubmapInsert(t.evidence, e.id, e.row);
    var rooted := t.(evidence := t.evidence[e.id := e.row]);
    SubmapReflexive(t.versions, t.evidence);
    ArtefactsLinkedIn(t, rooted);
    ArtefactsKeepLinks(rooted, e.artefacts);
    ArtefactsAdd(rooted, e.artefacts);
    var persisted := PersistArtefacts(rooted, e.artefacts).value;
    SubmapReflexive(persisted.versions, persisted.evidence);
    ArtefactsLinkedIn(persisted, PersistEvidence(t, w, e).value);
  }

  lemma EvidenceLinksKept(t: Tables, w: World, e: Evidence)
    requires PersistEvidence(t, w, e).Ok? && Good(t, w) && Linked(t, w)
    ensures Linked(PersistEvidence(t, w, e).value, w)
  {
    hide PersistEvidence, Good, Linked, Submap, SameChildren, ArtefactsStored, ChildStored, Evolves, EvidenceRefusal,
         RoleRows, Numbered;
    var t1 := PersistEvidence(t, w, e).value;
    LinkedArtefacts(t, w);
    EvidenceArtefactsLinked(t, w, e);
    EvidenceKeeps(t, w, e);
    EvidenceReadsBack(t, w, e);
    EvidenceAddsArtefacts(t, w, e);
    StoredRolesNamed(t1, e);
    LinksCarried(t, t1, w, e.id, "");
  }

  lemma ManifestLinksKept(t: Tables, w: World, m: Manifest)
    requires PersistManifest(t, w, m).Ok? && Good(t, w) && Linked(t, w)
    ensures Linked(PersistManifest(t, w, m).value, w)
  {
    hide PersistManifest, Linked, Submap, SameChildren, Evolves, ManifestRefusal, MemberRows, CandidatesGood,
         LineagesGood, EvidencesGood,
         ManifestLinked;
    var t1 := PersistManifest(t, w, m).value;
    LinkedArtefacts(t, w);
    ManifestAdds(t, w, m);
    ManifestKeeps(t, w, m);
    ManifestReadsBack(t, w, m);
    SubmapReflexive(t.versions, t.evidence);
    ArtefactsLinkedIn(t, t1);
    AcceptedManifestLinked(t1, w, m);
    StoredMembersNamed(t1, w, m);
    LinksCarried(t, t1, w, "", m.id);
  }

  lemma AttemptKeepsLinks(t: Tables, w: World, op: Op)
    requires Attempted(t, w, op).Ok? && Good(t, w) && Linked(t, w) && WellFormed(op)
    ensures Linked(Attempted(t, w, op).value, w)
  {
    hide Good, Linked, PersistCandidate, PersistArtefact, PersistEvidence, PersistManifest;
    match op
    case OpCandidate(p, v) => CandidateLinks(t, w, p, v);
    case OpArtefact(a) => ArtefactLinks(t, w, a);
    case OpEvidence(e) => EvidenceLinksKept(t, w, e);
    case OpManifest(m) => ManifestLinksKept(t, w, m);
  }

  /** Over any run every link between artefacts, executions, manifests and candidates is consistent. */
  lemma {:induction false} LinksConsistent(w: World, ops: seq<Op>)
    requires forall i :: 0 <= i < |ops| ==> WellFormed(ops[i])
    ensures Linked(Run(Empty(), w, ops), w)
  {
    hide Good, Attempted, WellFormed, Evolves;
    if ops != [] {
      var front := ops[..|ops| - 1];
      LinksConsistent(w, front);
      EmptyGood(w);
      RunEvolves(Empty(), w, front);
      if Attempted(Run(Empty(), w, front), w, ops[|ops| - 1]).Ok? {
        AttemptKeepsLinks(Run(Empty(), w, front), w, ops[|ops| - 1]);
      }
    }
  }
}
