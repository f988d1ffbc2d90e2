/**
 The run event log and the run projection's compare-and-swap (db/workflow_persistence.py).
 The run row lock makes every append of one run atomic, so any interleaving of sessions is
 a sequence of these operations.
 */
module WorkflowLog {
  import opened Prelude

  type RunId = string

  datatype Error = LookupError | ConflictError | ValueError

  datatype Fingerprint = Fingerprint(version: string, digest: string)

  /** An event as a producer offers it. */
  datatype Event = Event(run: RunId, producer: string, fingerprint: Fingerprint, body: string)

  datatype Row = Row(event: Event, sequence: nat)

  /** A run's projection: its state, its version and its other mutable fields. */
  datatype Projection = Projection(state: string, version: nat, fields: map<string, string>)

  datatype Db = Db(runs: map<RunId, Projection>, rows: seq<Row>)

  // ----- append -----

  predicate SameProducer(row: Row, e: Event) {
    row.event.run == e.run && row.event.producer == e.producer
  }

  function Existing(rows: seq<Row>, e: Event): Option<Row> {
    if rows == [] then None
    else if Existing(rows[..|rows| - 1], e).Some? then Existing(rows[..|rows| - 1], e)
    else if SameProducer(rows[|rows| - 1], e) then Some(rows[|rows| - 1])
    else None
  }

  /** The largest sequence of the run's rows, or 0. */
  function MaxSequence(rows: seq<Row>, run: RunId): nat {
    if rows == [] then 0
    else
      var before := MaxSequence(rows[..|rows| - 1], run);
      if rows[|rows| - 1].event.run == run then Max(before, rows[|rows| - 1].sequence) else before
  }

  function Append(db: Db, e: Event): (Db, Result<Row, Error>) {
    if e.producer == "" then (db, Err(ValueError))
    else if e.run !in db.runs then (db, Err(LookupError))
    else
      var existing := Existing(db.rows, e);
      if existing.Some? then
        if existing.value.event.fingerprint == e.fingerprint then (db, Ok(existing.value)) else (db, Err(ConflictError))
      else
        var row := Row(e, MaxSequence(db.rows, e.run) + 1);
        (db.(rows := db.rows + [row]), Ok(row))
  }

  // ----- compare and swap -----

  const MUTABLE_FIELDS: set<string> := {
    "state", "repair_attempts_used", "retry_attempts_used", "step_attempts_used", "terminal_at", "failure_code",
    "abstention_code", "cancellation_code", "terminal_actor_type", "terminal_actor_id", "checkpoint_ref"}

  function Swapped(p: Projection, updates: map<string, string>): Projection {
    Projection(if "state" in updates then updates["state"] else p.state, p.version + 1,
               p.fields + (updates - {"state"}))
  }

  /** `allowed` is the set of mutable fields. */
  function CompareAndSwap(db: Db, allowed: set<string>, run: RunId, state: string, version: nat, updates: map<string,
        string>): (Db, Result<Projection, Error>) {
    if !(updates.Keys <= allowed) then (db, Err(ValueError))
    else if updates == map[] then (db, Err(ValueError))
    else if run !in db.runs || db.runs[run].state != state || db.runs[run].version != version
    then (db, Err(ConflictError))
    else (db.(runs := db.runs[run := Swapped(db.runs[run], updates)]), Ok(Swapped(db.runs[run], updates)))
  }

  // ----- histories -----

  datatype Op = OpAppend(event: Event) | OpSwap(run: RunId, state: string, version: nat, updates: map<string, string>)

  function Step(db: Db, allowed: set<string>, op: Op): Db {
    match op
    case OpAppend(e) => Append(db, e).0
    case OpSwap(run, state, version, updates) => CompareAndSwap(db, allowed, run, state, version, updates).0
  }

  function Run(db: Db, allowed: set<string>, ops: seq<Op>): Db {
    if ops == [] then db else Step(Run(db, allowed, ops[..|ops| - 1]), allowed, ops[|ops| - 1])
  }

  // ----- the log is gap-free -----

  function CountOf(rows: seq<Row>, run: RunId): nat {
    if rows == [] then 0 else CountOf(rows[..|rows| - 1], run) + if rows[|rows| - 1].event.run == run then 1 else 0
  }

  /** Row i is the next one of its run, and no earlier row has its producer id. */
  ghost predicate RowGood(rows: seq<Row>, i: nat)
    requires i < |rows|
  {
    && rows[i].sequence == CountOf(rows[..i], rows[i].event.run) + 1
    && forall j :: 0 <= j < i ==> !SameProducer(rows[j], rows[i].event)
  }

  /** The sequences of each run are 1, 2, ... in order and its producer ids are distinct. */
  ghost predicate LogGood(rows: seq<Row>) {
    forall i :: 0 <= i < |rows| ==> RowGood(rows, i)
  }

  lemma {:induction false} ExistingFinds(rows: seq<Row>, e: Event)
    ensures Existing(rows, e).None? <==> forall j :: 0 <= j < |rows| ==> !SameProducer(rows[j], e)
    ensures Existing(rows, e).Some? ==> Existing(rows, e).value in rows && SameProducer(Existing(rows, e).value, e)
  {
    if rows != [] { ExistingFinds(rows[..|rows| - 1], e); }
  }

  lemma {:induction false} MaxIsCount(rows: seq<Row>, run: RunId)
    requires LogGood(rows)
    ensures MaxSequence(rows, run) == CountOf(rows, run)
  {
    if rows != [] {
      var n := |rows| - 1;
      LogPrefix(rows, n);
      MaxIsCount(rows[..n], run);
      assert RowGood(rows, n);
    }
  }

  lemma LogPrefix(rows: seq<Row>, n: nat)
    requires LogGood(rows) && n <= |rows|
    ensures LogGood(rows[..n])
  {
    forall i | 0 <= i < n ensures RowGood(rows[..n], i) {
      assert RowGood(rows, i);
      assert rows[..n][..i] == rows[..i];
    }
  }

  lemma AppendKeeps(db: Db, e: Event)
    requires LogGood(db.rows)
    ensures LogGood(Append(db, e).0.rows) && db.rows <= Append(db, e).0.rows && Append(db, e).0.runs == db.runs
  {
    hide Existing, MaxSequence;
    ExistingFinds(db.rows, e);
    MaxIsCount(db.rows, e.run);
    var rows := Append(db, e).0.rows;
    if rows != db.rows {
      forall i | 0 <= i < |rows| ensures RowGood(rows, i) {
        assert rows[..i] == db.rows[..i];
        if i < |db.rows| { assert RowGood(db.rows, i); } else { assert db.rows[..i] == db.rows; }
      }
    }
  }

  /** After any interleaving of appends and swaps the log is gap-free and only ever grew. */
  lemma {:induction false} HistoryGood(db: Db, allowed: set<string>, ops: seq<Op>)
    requires LogGood(db.rows)
    ensures LogGood(Run(db, allowed, ops).rows) && db.rows <= Run(db, allowed, ops).rows
  {
    hide Append, CompareAndSwap, LogGood;
    if ops != [] {
      HistoryGood(db, allowed, ops[..|ops| - 1]);
      var before := Run(db, allowed, ops[..|ops| - 1]);
      match ops[|ops| - 1]
      case OpAppend(e) => AppendKeeps(before, e);
      case OpSwap(run, state, version, updates) => SwapKeepsRows(before, allowed, run, state, version, updates);
    }
  }

  lemma SwapKeepsRows(db: Db, allowed: set<string>, run: RunId, state: string, version: nat, updates: map<string,
        string>)
    ensures CompareAndSwap(db, allowed, run, state, version, updates).0.rows == db.rows
  {
  }

  /** The k-th row of a run, counted from 0, is the one with sequence k + 1. */
  lemma {:induction false} SequencesComplete(rows: seq<Row>, run: RunId, k: nat) returns (i: nat)
    requires LogGood(rows) && k < CountOf(rows, run)
    ensures i < |rows| && rows[i].event.run == run && rows[i].sequence == k + 1
    ensures forall j :: 0 <= j < |rows| && rows[j].event.run == run && rows[j].sequence == k + 1 ==> j == i
  {
    var n := |rows| - 1;
    LogPrefix(rows, n);
    assert RowGood(rows, n);
    if k < CountOf(rows[..n], run) {
      i := SequencesComplete(rows[..n], run, k);
      assert forall j :: 0 <= j < n ==> rows[..n][j] == rows[j];
    } else {
      i := n;
      forall j | 0 <= j < n && rows[j].event.run == run ensures rows[j].sequence <= k {
        assert RowGood(rows, j);
        CountRises(rows, run, j, n);
      }
    }
  }

  lemma {:induction false} CountRises(rows: seq<Row>, run: RunId, j: nat, n: nat)
    requires j < n <= |rows| && rows[j].event.run == run
    ensures CountOf(rows[..j], run) < CountOf(rows[..n], run)
    decreases n
  {
    assert rows[..n][..n - 1] == rows[..n - 1];
    if j < n - 1 { CountRises(rows, run, j, n - 1); }
  }

  // ----- retries change nothing -----

  predicate Repeats(a: Op, b: Op) {
    a.OpAppend? && b.OpAppend? && a.event.run == b.event.run && a.event.producer == b.event.producer
  }

  /** The history without the appends whose producer event was offered before. */
  function Firsts(ops: seq<Op>): seq<Op> {
    if ops == [] then []
    else
      var n := |ops| - 1;
      if exists j :: 0 <= j < n && Repeats(ops[j], ops[n]) then Firsts(ops[..n]) else Firsts(ops[..n]) + [ops[n]]
  }

  lemma {:induction false} SwapsKeepRuns(db: Db, allowed: set<string>, ops: seq<Op>)
    ensures Run(db, allowed, ops).runs.Keys == db.runs.Keys
  {
    hide Existing, MaxSequence;
    if ops != [] { SwapsKeepRuns(db, allowed, ops[..|ops| - 1]); }
  }

  lemma {:induction false} RowsGrow(db: Db, allowed: set<string>, ops: seq<Op>, n: nat)
    requires n <= |ops|
    ensures Run(db, allowed, ops[..n]).rows <= Run(db, allowed, ops).rows
  {
    hide Existing, MaxSequence;
    if n == |ops| {
      assert ops[..n] == ops;
    } else {
      RowsGrow(db, allowed, ops[..|ops| - 1], n);
      assert ops[..|ops| - 1][..n] == ops[..n];
    }
  }

  lemma AppendLeavesRow(db: Db, e: Event)
    requires e.producer != "" && e.run in db.runs
    ensures Existing(Append(db, e).0.rows, e).Some?
  {
  }

  lemma ExistingStays(rows: seq<Row>, more: seq<Row>, e: Event)
    requires rows <= more && Existing(rows, e).Some?
    ensures Existing(more, e).Some?
  {
  }

  /** An append offered before, with the same content or not, leaves the database as it is. */
  lemma RepeatIsNoOp(db: Db, allowed: set<string>, ops: seq<Op>, j: nat, e: Event)
    requires j < |ops| && Repeats(ops[j], OpAppend(e))
    ensures Append(Run(db, allowed, ops), e).0 == Run(db, allowed, ops)
  {
    hide MaxSequence, CompareAndSwap, Existing;
    SwapsKeepRuns(db, allowed, ops);
    SwapsKeepRuns(db, allowed, ops[..j]);
    var before := Run(db, allowed, ops[..j]);
    if e.producer != "" && e.run in before.runs {
      assert ops[..j + 1][..j] == ops[..j];
      AppendLeavesRow(before, ops[j].event);
      RowsGrow(db, allowed, ops, j + 1);
      ExistingStays(Run(db, allowed, ops[..j + 1]).rows, Run(db, allowed, ops).rows, ops[j].event);
      ExistingFinds(Run(db, allowed, ops).rows, ops[j].event);
      ExistingFinds(Run(db, allowed, ops).rows, e);
    }
  }

  /** The first occurrences repeat nothing among themselves, and leave out only what repeats one of them. */
  lemma {:induction false} FirstsAreFirst(ops: seq<Op>)
    ensures forall op :: op in Firsts(ops) ==> op in ops
    ensures forall op :: op in ops ==> op in Firsts(ops) || exists f :: f in Firsts(ops) && Repeats(f, op)
    ensures forall i, j :: 0 <= i < j < |Firsts(ops)| ==> !Repeats(Firsts(ops)[i], Firsts(ops)[j])
  {
    if ops != [] {
      var n := |ops| - 1;
      FirstsAreFirst(ops[..n]);
      if exists j :: 0 <= j < n && Repeats(ops[j], ops[n]) {
        var j :| 0 <= j < n && Repeats(ops[j], ops[n]);
        assert ops[j] in ops[..n];
      } else {
        forall f | f in Firsts(ops[..n]) ensures !Repeats(f, ops[n]) {
          var j :| 0 <= j < n && ops[..n][j] == f;
          assert ops[j] == f;
        }
      }
    }
  }

  /** A history and its first occurrences give the same database: retries anywhere change nothing. */
  lemma {:induction false} RetriesChangeNothing(db: Db, allowed: set<string>, ops: seq<Op>)
    ensures Run(db, allowed, ops) == Run(db, allowed, Firsts(ops))
  {
    hide Append, CompareAndSwap;
    if ops != [] {
      var n := |ops| - 1;
      RetriesChangeNothing(db, allowed, ops[..n]);
      if exists j :: 0 <= j < n && Repeats(ops[j], ops[n]) {
        var j :| 0 <= j < n && Repeats(ops[j], ops[n]);
        RepeatIsNoOp(db, allowed, ops[..n], j, ops[n].event);
      } else {
        assert (Firsts(ops[..n]) + [ops[n]])[..|Firsts(ops[..n])|] == Firsts(ops[..n]);
      }
    }
  }

  /**
   What an append answers and stores: an empty producer id or an unknown run is refused; an event
   whose producer id the run already has is answered with that row, or refused when the
   fingerprints differ; any other event becomes the next row of its run, as it came.
   */
  lemma AppendOutcome(db: Db, e: Event, j: nat)
    requires LogGood(db.rows) && j <= |db.rows|
    requires j < |db.rows| ==> db.rows[j].event.run == e.run && db.rows[j].event.producer == e.producer
    requires j == |db.rows| ==>
               forall k :: 0 <= k < j ==> db.rows[k].event.run != e.run || db.rows[k].event.producer != e.producer
    ensures var (db1, r) := Append(db, e);
            && db1.runs == db.runs
            && (r == Err(ValueError) <==> e.producer == "")
            && (r == Err(LookupError) <==> e.producer != "" && e.run !in db.runs)
            && (e.producer != "" && e.run in db.runs && j < |db.rows| ==>
                  && db1 == db
                  && r == if db.rows[j].event.fingerprint == e.fingerprint then Ok(db.rows[j]) else Err(ConflictError))
            && (e.producer != "" && e.run in db.runs && j == |db.rows| ==>
                  var row := Row(e, CountOf(db.rows, e.run) + 1);
                  db1.rows == db.rows + [row] && r == Ok(row))
            && (r.Err? ==> db1 == db)
  {
    hide MaxSequence, Existing;
    ExistingFinds(db.rows, e);
    MaxIsCount(db.rows, e.run);
    if j < |db.rows| { OneRowOfProducer(db.rows, e, j); }
  }

  lemma OneRowOfProducer(rows: seq<Row>, e: Event, j: nat)
    requires LogGood(rows) && j < |rows| && SameProducer(rows[j], e)
    ensures Existing(rows, e) == Some(rows[j])
  {
    hide Existing;
    ExistingFinds(rows, e);
    var i :| 0 <= i < |rows| && rows[i] == Existing(rows, e).value;
    assert RowGood(rows, i) && RowGood(rows, j);
    assert SameProducer(rows[i], rows[j].event) && SameProducer(rows[j], rows[i].event);
  }

  /** A retry with the same fingerprint is answered with the stored row. */
  lemma RetryReturnsStored(db: Db, e: Event, retry: Event)
    requires Append(db, e).1.Ok? && retry.run == e.run && retry.producer == e.producer
    requires retry.fingerprint == e.fingerprint
    ensures var (db1, r) := Append(db, e);
            Append(db1, retry) == (db1, Ok(r.value))
  {
    hide MaxSequence;
    var (db1, r) := Append(db, e);
    SameLookup(db1.rows, e, retry);
    if db1 != db {
      assert db1.rows[..|db.rows|] == db.rows;
    }
  }

  lemma {:induction false} SameLookup(rows: seq<Row>, e: Event, f: Event)
    requires f.run == e.run && f.producer == e.producer
    ensures Existing(rows, e) == Existing(rows, f)
  {
    if rows != [] { SameLookup(rows[..|rows| - 1], e, f); }
  }

  // ----- compare and swap -----

  /**
   A swap succeeds exactly on the expected state and version, raises the version by one and writes
   only what it names.
   */
  lemma SwapSucceedsIff(db: Db, allowed: set<string>, run: RunId, state: string, version: nat, updates: map<string,
        string>)
    ensures var (db1, r) := CompareAndSwap(db, allowed, run, state, version, updates);
            && (r.Ok? <==>
                  updates.Keys <= allowed && updates != map[] && run in db.runs && db.runs[run].state == state &&
                  db.runs[run].version == version)
            && (r.Err? ==> db1 == db)
            && (r == Err(ValueError) <==> !(updates.Keys <= allowed) || updates == map[])
            && (r.Err? ==> r.error == ValueError || r.error == ConflictError)
            && (r.Ok? ==>
                  && db1.rows == db.rows && db1.runs.Keys == db.runs.Keys && r.value == db1.runs[run]
                  && run in db1.runs && db1.runs[run].version == version + 1
                  && (forall other :: other in db.runs && other != run ==>
                        other in db1.runs && db1.runs[other] == db.runs[other])
                  && (forall f :: f in updates && f != "state" ==>
                        f in db1.runs[run].fields && db1.runs[run].fields[f] == updates[f])
                  && (forall f :: f in db.runs[run].fields && f !in updates ==>
                        f in db1.runs[run].fields && db1.runs[run].fields[f] == db.runs[run].fields[f])
                  && db1.runs[run].fields.Keys == db.runs[run].fields.Keys + (updates.Keys - {"state"})
                  && ("state" in updates ==> db1.runs[run].state == updates["state"])
                  && ("state" !in updates ==> db1.runs[run].state == state))
  {
  }

  lemma {:induction false} VersionsRise(db: Db, allowed: set<string>, ops: seq<Op>, run: RunId)
    requires run in db.runs
    ensures run in Run(db, allowed, ops).runs && Run(db, allowed, ops).runs[run].version >= db.runs[run].version
  {
    hide Existing, MaxSequence;
    if ops != [] { VersionsRise(db, allowed, ops[..|ops| - 1], run); }
  }

  /** Two swaps of one run that expect the same version cannot both succeed, whatever happens between them. */
  lemma NoTwoSwapsOfOneVersion(db: Db, allowed: set<string>, run: RunId, version: nat, stateA: string, a: map<string,
        string>, between: seq<Op>, stateB: string, b: map<string, string>)
    requires CompareAndSwap(db, allowed, run, stateA, version, a).1.Ok?
    ensures var later := Run(CompareAndSwap(db, allowed, run, stateA, version, a).0, allowed, between);
            CompareAndSwap(later, allowed, run, stateB, version, b).1.Err?
  {
    hide Run;
    VersionsRise(CompareAndSwap(db, allowed, run, stateA, version, a).0, allowed, between, run);
  }

  // ----- the session -----

  class WorkflowSession {
    var runs: map<RunId, Projection>
    var rows: seq<Row>

    function State(): Db
      reads this
    {
      Db(runs, rows)
    }

    method AppendRunEvent(e: Event) returns (r: Result<Row, Error>)
      modifies this
      ensures (State(), r) == Append(old(State()), e)
    {
      if e.producer == "" { return Err(ValueError); }
      if e.run !in runs { return Err(LookupError); }
      var existing := FindExisting(e);
      if existing.Some? {
        if existing.value.event.fingerprint == e.fingerprint { return Ok(existing.value); }
        return Err(ConflictError);
      }
      var last := LastSequence(e.run);
      var row := Row(e, last + 1);
      rows := rows + [row];
      return Ok(row);
    }

    method FindExisting(e: Event) returns (found: Option<Row>)
      ensures found == Existing(rows, e)
    {
      found := None;
      var i := 0;
      while i < |rows|
        invariant 0 <= i <= |rows|
        invariant found == Existing(rows[..i], e)
      {
        assert rows[..i + 1][..i] == rows[..i];
        if found.None? && SameProducer(rows[i], e) { found := Some(rows[i]); }
        i := i + 1;
      }
      assert rows[..i] == rows;
    }

    method LastSequence(run: RunId) returns (last: nat)
      ensures last == MaxSequence(rows, run)
    {
      last := 0;
      var i := 0;
      while i < |rows|
        invariant 0 <= i <= |rows|
        invariant last == MaxSequence(rows[..i], run)
      {
        assert rows[..i + 1][..i] == rows[..i];
        if rows[i].event.run == run { last := Max(last, rows[i].sequence); }
        i := i + 1;
      }
      assert rows[..i] == rows;
    }

    method CompareAndSwapRun(run: RunId, state: string, version: nat, updates: map<string,
        string>) returns (r: Result<Projection, Error>)
      modifies this
      ensures (State(), r) == CompareAndSwap(old(State()), MUTABLE_FIELDS, run, state, version, updates)
    {
      if !(updates.Keys <= MUTABLE_FIELDS) || updates == map[] { return Err(ValueError); }
      if run !in runs || runs[run].state != state || runs[run].version != version { return Err(ConflictError); }
      var after := Swapped(runs[run], updates);
      runs := runs[run := after];
      return Ok(after);
    }
  }
}
