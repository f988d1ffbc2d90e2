/**
 Assembling one request under two budgets and persisting both bundles. The identity of an item
 does not name its bundle and the identity of a bundle does name its budget, so two such
 bundles share their items, and the second is always refused. A concrete request shows it.
 */
module RebudgetedBundles {
  import opened Prelude
  import opened SourceLines
  import opened Utf8
  import opened Identities
  import opened Ranking
  import opened Windows
  import opened EvidenceTables
  import opened ContextAssembly
  import opened ContextBundles
  import opened ContextCoverage
  import opened BundlePersistence

  lemma SameItemsShared(a: Selection, b: Selection)
    requires a.items != [] && a.items == b.items
    ensures ShareItem(a, b)
  {
    assert a.items[0].id == b.items[0].id;
  }

  /**
   Once a request's bundle is stored, the bundle of the same request with a larger budget is
   refused after any run, whatever identities the two bundles have: with an ample budget both
   have the same items, and an item belongs to one bundle.
   */
  lemma RebudgetedRefused(env: Env, request: Request, budget: nat, id: Id, other: Id, describe: ContextItem -> string,
        before: seq<Selection>, more: seq<Selection>)
    requires Accepted(request) && AmpleBudget(env, request) && request.budget < budget <= MAX_TOKEN_BUDGET
    requires Assembled(env, request).Ok? && Assembled(env, request).value.items != []
    requires forall i :: 0 <= i < |before| ==> Constructed(before[i])
    requires forall i :: 0 <= i < |more| ==> Constructed(more[i])
    requires PersistBundle(PersistAll(NoBundles(), before),
                           SelectionOf(id, Assembled(env, request).value, describe)).Ok?
    ensures Assembled(env, request.(budget := budget)).Ok?
    ensures var a := SelectionOf(id, Assembled(env, request).value, describe);
            var b := SelectionOf(other, Assembled(env, request.(budget := budget)).value, describe);
            var t := PersistAll(PersistBundle(PersistAll(NoBundles(), before), a).value, more);
            PersistBundle(t, b) == Err(ConflictError)
  {
    hide Accepted, AmpleBudget, Assembled, Constructed, PersistBundle, PersistAll, ShareItem;
    LargerBudgetSameItems(env, request, budget);
    RebudgetedAccepted(request, budget);
    StoredBudget(env, request);
    var a := SelectionOf(id, Assembled(env, request).value, describe);
    var b := SelectionOf(other, Assembled(env, request.(budget := budget)).value, describe);
    AssembledConstructed(env, request, id, describe);
    AssembledConstructed(env, request.(budget := budget), other, describe);
    SameItemsShared(a, b);
    SharedItemNeverBoth(before, a, more, b);
  }

  lemma RebudgetedAccepted(request: Request, budget: nat)
    requires Accepted(request) && 1 <= budget <= MAX_TOKEN_BUDGET
    ensures Accepted(request.(budget := budget))
  {
    hide GenuineRanks, DistinctIds;
  }

  lemma StoredBudget(env: Env, request: Request)
    requires Accepted(request) && Assembled(env, request).Ok?
    ensures Assembled(env, request).value.maxTokens == request.budget
  {
    hide Accepted, Assembled, ShowsItsFile, NoLineTwice, UniqueItems, TokenSum, Packed, DigestsCollide;
    AssembledGood(env, request);
  }

  // ----- a concrete request -----

  const EIGHT: string := "00000000"
  const ZEROS: Hex64 := EIGHT + EIGHT + EIGHT + EIGHT + EIGHT + EIGHT + EIGHT + EIGHT

  predicate NeverFound(pattern: Pattern, line: string) {
    false
  }

  function ZeroDigest(data: seq<byte>): Hex64 {
    ZEROS
  }

  function ReadsX(file: Identity): FileRead {
    Text("x")
  }

  /** No symbol is ever found, every digest is the same and every file reads "x". */
  function PlainEnv(): Env {
    Env(NeverFound, ZeroDigest, ReadsX)
  }

  const REPOSITORY: Identity := "r"
  const REVISION: Identity := "v"
  const FILE: Identity := "A"
  const INDEXED: IndexedFile := IndexedFile(ZEROS, false, 1)

  function PlainCandidate(): CandidateFile {
    CandidateFile(CandidateIdentity(ZeroDigest, REPOSITORY, REVISION, FILE), REPOSITORY, REVISION, FILE, 1, 1, [])
  }

  function PlainRequest(budget: nat): Request {
    Request(REPOSITORY, REVISION, REPOSITORY, REVISION, map[FILE := INDEXED], [PlainCandidate()], budget)
  }

  const PLAIN_SPAN: Proposal := Proposal(1, 1, None, {})

  function PlainGroup(): Group {
    Group(PlainCandidate(), ["x"], [PLAIN_SPAN])
  }

  lemma PlainText()
    ensures SplitLines("x") == ["x"] && |Encode("x")| == 1
  {
    assert FirstLineLength("x") == 1 && "x"[..1] == "x" && "x"[1..] == "";
  }

  lemma PlainLines()
    ensures ReadLines(PlainEnv(), FILE, INDEXED) == Ok(Some(["x"]))
  {
    PlainText();
  }

  /** The file has no located line, so its one window is its one line. */
  lemma PlainWindow()
    ensures FileSpans({}, 1) == [PLAIN_SPAN]
  {
    assert ChosenLines({}, 1) == [];
    FallbackSpan(PLAIN_SPAN);
  }

  lemma OneGroup(env: Env, request: Request, c: CandidateFile, g: Group)
    requires c.file in request.files && GroupOf(env, request, c) == Ok(Some(g))
    ensures Groups(env, request, [c]) == Ok([g])
  {
    hide GroupOf;
    var cs := [c];
    assert cs[..0] == [] && Groups(env, request, cs[..0]) == Ok([]);
    assert [] + [g] == [g];
  }

  lemma PlainGroups(budget: nat)
    ensures Groups(PlainEnv(), PlainRequest(budget), [PlainCandidate()]) == Ok([PlainGroup()])
  {
    hide ReadLines, FileSpans, CandidateIdentity, Groups;
    PlainLines();
    PlainWindow();
    assert FoundLines(PlainEnv(), ["x"], []) == {};
    OneGroup(PlainEnv(), PlainRequest(budget), PlainCandidate(), PlainGroup());
  }

  lemma PlainAccepted(budget: nat)
    requires 1 <= budget <= MAX_TOKEN_BUDGET
    ensures Accepted(PlainRequest(budget)) && Unchanged(PlainEnv(), PlainRequest(budget))
  {
    hide ReadLines, CandidateIdentity;
    PlainLines();
  }

  /** One byte is enough for the whole file. */
  lemma PlainAmple(budget: nat)
    requires 1 <= budget
    ensures AmpleBudget(PlainEnv(), PlainRequest(budget))
  {
    hide Groups, CandidateIdentity, Encode;
    PlainGroups(budget);
    PlainText();
    var g := PlainGroup();
    assert ContentOf(["x"], 1, 1) == "x" by { assert ["x"][0..1] == ["x"] && Join(["x"]) == "x" + Join([]); }
    assert SpanBytes(g, 0) == 1 + SpanBytes(g, 1);
    assert [g][1..] == [] && AllBytes([g]) == 1 + AllBytes([]) && AllSpans([g]) == 1 + AllSpans([]);
  }

  lemma OneSpan(g: Group)
    requires |g.spans| == 1
    ensures AllSpans([g]) == 1
  {
    assert [g][1..] == [];
  }

  /** The request is assembled into a bundle of one item. */
  lemma PlainAssembles(budget: nat)
    requires 1 <= budget <= MAX_TOKEN_BUDGET
    ensures var r := Assembled(PlainEnv(), PlainRequest(budget));
            r.Ok? && |r.value.items| == 1
  {
    hide Groups, CandidateIdentity, Accepted, Unchanged, Ample, Assembled, Packed, AllWhole, AllShown, AllSpans,
         GoodBundle;
    var env, request := PlainEnv(), PlainRequest(budget);
    PlainAccepted(budget);
    PlainAmple(budget);
    PlainGroups(budget);
    AmpleShowsAll(env, request);
    OneSpan(PlainGroup());
    AssemblySucceeds(env, request);
    AssembledGood(env, request);
  }

  /** The same request with budget 1 and with budget 2: either bundle is accepted first, and the second is refused. */
  lemma RebudgetedExample(describe: ContextItem -> string)
    ensures Assembled(PlainEnv(), PlainRequest(1)).Ok? && Assembled(PlainEnv(), PlainRequest(2)).Ok?
    ensures var a := SelectionOf("one", Assembled(PlainEnv(), PlainRequest(1)).value, describe);
            var b := SelectionOf("two", Assembled(PlainEnv(), PlainRequest(2)).value, describe);
            && PersistBundle(NoBundles(), a).Ok? && PersistBundle(NoBundles(), b).Ok?
            && PersistBundle(PersistBundle(NoBundles(), a).value, b) == Err(ConflictError)
  {
    hide Accepted, AmpleBudget, Assembled, Constructed, PersistBundle, PlainEnv;
    var env := PlainEnv();
    PlainAccepted(1);
    PlainAccepted(2);
    PlainAmple(1);
    PlainAssembles(1);
    PlainAssembles(2);
    FirstBundleAccepted(env, PlainRequest(1), "one", describe);
    FirstBundleAccepted(env, PlainRequest(2), "two", describe);
    RebudgetedRefused(env, PlainRequest(1), 2, "one", "two", describe, [], []);
    assert PlainRequest(1).(budget := 2) == PlainRequest(2);
  }

  /** Into empty tables every assembled bundle is accepted. */
  lemma FirstBundleAccepted(env: Env, request: Request, id: Id, describe: ContextItem -> string)
    requires Accepted(request) && Assembled(env, request).Ok?
    ensures PersistBundle(NoBundles(), SelectionOf(id, Assembled(env, request).value, describe)).Ok?
  {
    hide Accepted, Assembled, Constructed, PersistBundle, BundleStored;
    NoBundlesWhole();
    AssembledConstructed(env, request, id, describe);
    PersistSucceedsIff(NoBundles(), SelectionOf(id, Assembled(env, request).value, describe));
  }
}
