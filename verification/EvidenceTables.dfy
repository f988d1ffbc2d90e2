/**
 Write-once evidence tables (db/db004_persistence.py): the rows, one conflict-free insert
 and the aggregates built from it. A table is a map from its primary key; a child table is a
 map from the parent's key to the map of its children. A failed aggregate is an `Err`, and
 its savepoint gives the tables back as they were.
 */
module EvidenceTables {
  import opened Prelude

  type Id = string

  datatype Error = ConflictError | UnresolvableError | ValueError

  /** Durable workflow identities: the runs, and the run each attempt belongs to. */
  datatype World = World(runs: set<Id>, attempts: map<Id, Id>)

  datatype PatchRow = PatchRow(version: Id, run: Id, attempt: Id, provenance: string, rest: string)

  datatype VersionRow = VersionRow(patch: Id, run: Id, attempt: Id, level: nat, parent: Option<Id>, provenance: string,
                                   rest: string)

  datatype ArtefactRow = ArtefactRow(candidate: Option<Id>, evidence: Option<Id>, rest: string)

  datatype EvidenceRow = EvidenceRow(candidate: Id, run: Option<Id>, attempt: Id, phase: string, rest: string)

  datatype Role = StdoutRole | StderrRole | OutputRole | CompileDiagnosticRole

  datatype CaseRow = CaseRow(reference: string, rest: string)

  datatype ObservationRow = ObservationRow(breached: bool, rest: string)

  datatype ManifestRow = ManifestRow(candidate: Option<Id>, evidence: Option<Id>, attempt: Option<Id>,
                                     phase: Option<string>, rest: string)

  datatype Tables = Tables(
    patches: map<Id, PatchRow>, files: map<Id, map<string, string>>,
    versions: map<Id, VersionRow>,
    artefacts: map<Id, ArtefactRow>,
    evidence: map<Id, EvidenceRow>, roles: map<Id, map<Id, Role>>,
    cases: map<Id, map<int, CaseRow>>, observations: map<Id, map<int, ObservationRow>>,
    manifests: map<Id, ManifestRow>, members: map<Id, map<Id, ()>>)

  function Empty(): Tables {
    Tables(map[], map[], map[], map[], map[], map[], map[], map[], map[], map[])
  }

  function Children<K, V>(table: map<Id, map<K, V>>, root: Id): map<K, V> {
    if root in table then table[root] else map[]
  }

  // ----- the insert every aggregate is built from -----

  /** Inserts a row, or accepts the stored row when it is the same; `clash` is a violated secondary uniqueness rule. */
  function Converge<K(==), V(==)>(table: map<K, V>, key: K, row: V, clash: bool): Result<map<K, V>, Error> {
    if key in table then if table[key] == row then Ok(table) else Err(ConflictError)
    else if clash then Err(ConflictError)
    else Ok(table[key := row])
  }

  /** Converges the rows of a child collection one after another. */
  function ConvergeAll<K(==), V(==)>(children: map<K, V>, rows: seq<(K, V)>,
        clash: (map<K, V>, K, V) -> bool): Result<map<K, V>, Error> {
    if rows == [] then Ok(children)
    else
      var n := |rows| - 1;
      var before := ConvergeAll(children, rows[..n], clash);
      if before.Err?
      then before
      else Converge(before.value, rows[n].0, rows[n].1, clash(before.value, rows[n].0, rows[n].1))
  }

  /** The collection the rows describe. */
  function Collection<K(==), V>(rows: seq<(K, V)>): map<K, V> {
    if rows == [] then map[] else Collection(rows[..|rows| - 1])[rows[|rows| - 1].0 := rows[|rows| - 1].1]
  }

  predicate NeverClash<K, V>(children: map<K, V>, key: K, row: V) {
    false
  }

  /** A root that already existed must arrive with exactly its stored children. */
  function ConvergeChildren<K(==), V(==)>(table: map<Id, map<K, V>>, root: Id, existed: bool, rows: seq<(K, V)>,
        clash: (map<K, V>, K, V) -> bool)
    : Result<map<Id, map<K, V>>, Error>
  {
    if existed && Children(table, root) != Collection(rows) then Err(ConflictError)
    else
      var after := ConvergeAll(Children(table, root), rows, clash);
      if after.Err? then Err(after.error) else Ok(table[root := after.value])
  }

  // ----- candidates -----

  datatype Patch = Patch(id: Id, version: Id, run: Id, attempt: Id, provenance: string, files: seq<(string, string)>,
                         rest: string)

  datatype Version = Version(id: Id, patch: Id, run: Id, attempt: Id, provenance: string, level: nat,
                             parent: Option<Id>, rest: string)

  /** What the CandidateVersion constructor enforces. */
  predicate LineageShape(v: Version) {
    && v.level <= 1 && (v.level == 0 <==> v.parent.None?) && v.parent != Some(v.id)
  }

  function BindingError(p: Patch, v: Version): Option<Error> {
    if p.id != v.patch || p.version != v.id || p.run != v.run || p.attempt != v.attempt || p.provenance != v.provenance
    then Some(ValueError) else None
  }

  function AttemptError(w: World, attempt: Id, run: Option<Id>): Option<Error> {
    if attempt !in w.attempts then Some(UnresolvableError)
    else if run.Some? && w.attempts[attempt] != run.value then Some(ValueError)
    else None
  }

  function LineageError(t: Tables, v: Version): Option<Error> {
    if v.parent.None? then None
    else if v.parent.value !in t.versions then Some(UnresolvableError)
    else if t.versions[v.parent.value].level != 0 then Some(ValueError)
    else if t.versions[v.parent.value].run != v.run then Some(ValueError)
    else None
  }

  function PatchRowOf(p: Patch): PatchRow {
    PatchRow(p.version, p.run, p.attempt, p.provenance, p.rest)
  }

  function VersionRowOf(v: Version): VersionRow {
    VersionRow(v.patch, v.run, v.attempt, v.level, v.parent, v.provenance, v.rest)
  }

  /** A patch row is unique in the version it belongs to. */
  predicate VersionTaken(t: Tables, version: Id) {
    exists p :: p in t.patches && t.patches[p].version == version
  }

  function CandidateRefusal(t: Tables, w: World, p: Patch, v: Version): Option<Error> {
    if BindingError(p, v).Some? then BindingError(p, v)
    else if p.run !in w.runs then Some(UnresolvableError)
    else if AttemptError(w, p.attempt, Some(p.run)).Some? then AttemptError(w, p.attempt, Some(p.run))
    else LineageError(t, v)
  }

  function PersistCandidate(t: Tables, w: World, p: Patch, v: Version): Result<Tables, Error> {
    if CandidateRefusal(t, w, p, v).Some? then Err(CandidateRefusal(t, w, p, v).value)
    else
      var patches := Converge(t.patches, p.id, PatchRowOf(p), VersionTaken(t, p.version));
      if patches.Err? then Err(patches.error)
      else
        var versions := Converge(t.versions, v.id, VersionRowOf(v), false);
        if versions.Err? then Err(versions.error)
        else
          var files := ConvergeChildren(t.files, p.id, p.id in t.patches, p.files, NeverClash);
          if files.Err? then Err(files.error)
          else Ok(t.(patches := patches.value, versions := versions.value, files := files.value))
  }

  // ----- artefacts -----

  datatype Artefact = Artefact(id: Id, row: ArtefactRow)

  function ArtefactRefusal(t: Tables, a: Artefact): Option<Error> {
    if a.row.candidate.Some? && a.row.candidate.value !in t.versions then Some(UnresolvableError)
    else if a.row.evidence.Some? && a.row.evidence.value !in t.evidence then Some(UnresolvableError)
    else if a.row.evidence.None? || a.row.candidate.None? then None
    else if t.evidence[a.row.evidence.value].candidate != a.row.candidate.value then Some(ValueError)
    else None
  }

  function PersistArtefact(t: Tables, a: Artefact): Result<Tables, Error> {
    if ArtefactRefusal(t, a).Some? then Err(ArtefactRefusal(t, a).value)
    else
      var artefacts := Converge(t.artefacts, a.id, a.row, false);
      if artefacts.Err? then Err(artefacts.error) else Ok(t.(artefacts := artefacts.value))
  }

  // ----- execution evidence -----

  /** Test cases and observations are given in their canonical order, numbered from 1. */
  datatype Evidence = Evidence(
    id: Id, row: EvidenceRow, resourceBreach: bool, artefacts: seq<(Artefact, Role)>,
    cases: seq<CaseRow>, observations: seq<ObservationRow>)

  function Numbered<V>(rows: seq<V>): (r: seq<(int, V)>)
    ensures |r| == |rows| && forall i :: 0 <= i < |r| ==> r[i] == (i + 1, rows[i])
  {
    if rows == [] then [] else Numbered(rows[..|rows| - 1]) + [(|rows|, rows[|rows| - 1])]
  }

  function RoleRows(pairs: seq<(Artefact, Role)>): (r: seq<(Id, Role)>)
    ensures |r| == |pairs| && forall i :: 0 <= i < |r| ==> r[i] == (pairs[i].0.id, pairs[i].1)
  {
    if pairs == [] then [] else RoleRows(pairs[..|pairs| - 1]) + [(pairs[|pairs| - 1].0.id, pairs[|pairs| - 1].1)]
  }

  /** A stream role is held by one artefact of an execution. */
  predicate StreamTaken(roles: map<Id, Role>, artefact: Id, role: Role) {
    (role == StdoutRole || role == StderrRole) && exists a :: a in roles && roles[a] == role
  }

  /** A test is reported once per execution. */
  predicate ReferenceTaken(cases: map<int, CaseRow>, ordinal: int, row: CaseRow) {
    exists k :: k in cases && cases[k].reference == row.reference
  }

  predicate AnyBreached(observations: seq<ObservationRow>) {
    exists i :: 0 <= i < |observations| && observations[i].breached
  }

  function EmbeddedRefusal(t: Tables, e: Evidence): Option<Error> {
    if exists i :: 0 <= i < |e.artefacts| && ForeignLink(t, e, e.artefacts[i].0) then Some(ValueError) else None
  }

  /** An embedded artefact must not declare another execution, nor another stored candidate. */
  predicate ForeignLink(t: Tables, e: Evidence, a: Artefact) {
    || (a.row.evidence.Some? && a.row.evidence.value != e.id)
    || (a.row.candidate.Some? && a.row.candidate.value != e.row.candidate && a.row.candidate.value in t.versions)
  }

  function EvidenceRefusal(t: Tables, w: World, e: Evidence): Option<Error> {
    if e.resourceBreach && !AnyBreached(e.observations) then Some(ValueError)
    else if e.row.run.Some? && e.row.run.value !in w.runs then Some(UnresolvableError)
    else if e.row.candidate !in t.versions then Some(UnresolvableError)
    else if e.row.run.Some? && t.versions[e.row.candidate].run != e.row.run.value then Some(ValueError)
    else if AttemptError(w, e.row.attempt, Some(t.versions[e.row.candidate].run)).Some?
    then AttemptError(w, e.row.attempt, Some(t.versions[e.row.candidate].run))
    else EmbeddedRefusal(t, e)
  }

  /** Persists the embedded artefacts one after another. */
  function PersistArtefacts(t: Tables, pairs: seq<(Artefact, Role)>): Result<Tables, Error> {
    if pairs == [] then Ok(t)
    else
      var before := PersistArtefacts(t, pairs[..|pairs| - 1]);
      if before.Err? then before else PersistArtefact(before.value, pairs[|pairs| - 1].0)
  }

  /** The stored child collections of the execution are the incoming ones. */
  predicate SameCollections(t: Tables, e: Evidence) {
    && Children(t.roles, e.id) == Collection(RoleRows(e.artefacts))
    && Children(t.cases, e.id) == Collection(Numbered(e.cases))
    && Children(t.observations, e.id) == Collection(Numbered(e.observations))
  }

  function PersistEvidence(t: Tables, w: World, e: Evidence): Result<Tables, Error> {
    if EvidenceRefusal(t, w, e).Some? then Err(EvidenceRefusal(t, w, e).value)
    else
      var existed := e.id in t.evidence;
      var root := Converge(t.evidence, e.id, e.row, false);
      if root.Err? then Err(root.error)
      else if existed && !SameCollections(t, e) then Err(ConflictError)
      else
        var artefacts := PersistArtefacts(t.(evidence := root.value), e.artefacts);
        var roles := ConvergeChildren(t.roles, e.id, existed, RoleRows(e.artefacts), StreamTaken);
        var cases := ConvergeChildren(t.cases, e.id, existed, Numbered(e.cases), ReferenceTaken);
        var observations := ConvergeChildren(t.observations, e.id, existed, Numbered(e.observations), NeverClash);
        if artefacts.Err? then Err(artefacts.error)
        else if roles.Err? then Err(roles.error)
        else if cases.Err? then Err(cases.error)
        else if observations.Err? then Err(observations.error)
        else Ok(artefacts.value.(roles := roles.value, cases := cases.value, observations := observations.value))
  }

  // ----- manifests -----

  datatype Manifest = Manifest(id: Id, row: ManifestRow, members: seq<Artefact>)

  function MemberRows(members: seq<Artefact>): (r: seq<(Id, ())>)
    ensures |r| == |members| && forall i :: 0 <= i < |r| ==> r[i] == (members[i].id, ())
  {
    if members == [] then [] else MemberRows(members[..|members| - 1]) + [(members[|members| - 1].id, ())]
  }

  predicate Duplicates(members: seq<Artefact>) {
    exists i, j :: 0 <= i < j < |members| && members[i].id == members[j].id
  }

  function MembersRefusal(t: Tables, members: seq<Artefact>): Option<Error> {
    if members == [] then None
    else
      var before := MembersRefusal(t, members[..|members| - 1]);
      var last := members[|members| - 1];
      if before.Some? then before
      else if last.id !in t.artefacts then Some(UnresolvableError)
      else if t.artefacts[last.id] != last.row then Some(ConflictError)
      else None
  }

  function ManifestRefusal(t: Tables, w: World, m: Manifest): Option<Error> {
    var r := m.row;
    if r.candidate.Some? && r.candidate.value !in t.versions then Some(UnresolvableError)
    else if r.evidence.Some? && r.evidence.value !in t.evidence then Some(UnresolvableError)
    else if r.attempt.Some? && r.attempt.value !in w.attempts then Some(UnresolvableError)
    else if r.evidence.Some? && r.candidate.Some? && t.evidence[r.evidence.value].candidate != r.candidate.value
    then Some(ValueError)
    else if r.evidence.Some? && r.attempt.Some? && t.evidence[r.evidence.value].attempt != r.attempt.value
    then Some(ValueError)
    else if r.evidence.Some? && Some(t.evidence[r.evidence.value].phase) != r.phase then Some(ValueError)
    else if r.candidate.Some? && r.attempt.Some? && t.versions[r.candidate.value].run != w.attempts[r.attempt.value]
    then Some(ValueError)
    else if Duplicates(m.members) then Some(ValueError)
    else MembersRefusal(t, m.members)
  }

  /** A stored manifest must arrive with its stored membership; a new one gets its members. */
  function PersistManifest(t: Tables, w: World, m: Manifest): Result<Tables, Error> {
    if ManifestRefusal(t, w, m).Some? then Err(ManifestRefusal(t, w, m).value)
    else
      var root := Converge(t.manifests, m.id, m.row, false);
      if root.Err? then Err(root.error)
      else if m.id in t.manifests then
        if Children(t.members, m.id).Keys != Collection(MemberRows(m.members)).Keys
        then Err(ConflictError)
        else Ok(t.(manifests := root.value))
      else
        var members := ConvergeAll(Children(t.members, m.id), MemberRows(m.members), NeverClash);
        if members.Err? then Err(members.error)
        else Ok(t.(manifests := root.value, members := t.members[m.id := members.value]))
  }

  // ----- one step of any aggregate -----

  datatype Op =
    | OpCandidate(patch: Patch, version: Version)
    | OpArtefact(artefact: Artefact)
    | OpEvidence(execution: Evidence)
    | OpManifest(manifest: Manifest)

  predicate WellFormed(op: Op) {
    op.OpCandidate? ==> LineageShape(op.version)
  }

  function Attempted(t: Tables, w: World, op: Op): Result<Tables, Error> {
    match op
    case OpCandidate(p, v) => PersistCandidate(t, w, p, v)
    case OpArtefact(a) => PersistArtefact(t, a)
    case OpEvidence(e) => PersistEvidence(t, w, e)
    case OpManifest(m) => PersistManifest(t, w, m)
  }

  /** A rejected aggregate rolls back to its savepoint. */
  function Step(t: Tables, w: World, op: Op): Tables {
    if Attempted(t, w, op).Ok? then Attempted(t, w, op).value else t
  }

  function Run(t: Tables, w: World, ops: seq<Op>): Tables {
    if ops == [] then t else Step(Run(t, w, ops[..|ops| - 1]), w, ops[|ops| - 1])
  }
}
