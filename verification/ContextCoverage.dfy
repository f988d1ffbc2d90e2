/**
 What a bundle shows when the budget suffices: every selected window of every file whole, and
 so every located line; and that its items then do not depend on the budget.
 */
module ContextCoverage {
  import opened Prelude
  import opened SourceLines
  import opened Utf8
  import opened Identities
  import opened Ranking
  import opened Windows
  import opened ContextAssembly
  import opened ContextBundles

  ghost predicate InFiles(groups: seq<Group>) {
    forall i :: 0 <= i < |groups| ==> SpansInFile(groups[i])
  }

  function AllBytes(groups: seq<Group>): nat
    requires InFiles(groups)
  {
    if groups == [] then 0 else SpanBytes(groups[0], 0) + AllBytes(groups[1..])
  }

  function AllSpans(groups: seq<Group>): nat {
    if groups == [] then 0 else |groups[0].spans| + AllSpans(groups[1..])
  }

  ghost predicate AllFitItems(groups: seq<Group>)
    requires InFiles(groups)
  {
    forall i :: 0 <= i < |groups| ==> SpansFitItems(groups[i], 0)
  }

  /** Every span fits an item, and budget and item count suffice for all of them. */
  ghost predicate Ample(groups: seq<Group>, remaining: int, have: nat)
    requires InFiles(groups)
  {
    AllFitItems(groups) && AllBytes(groups) <= remaining && have + AllSpans(groups) <= MAX_CONTEXT_ITEMS
  }

  /** Every span of every group as one item, whole. */
  function AllWhole(env: Env, request: Request, groups: seq<Group>): Result<seq<ContextItem>, ContextError>
    requires InFiles(groups)
  {
    if groups == [] then Ok([])
    else
      var first := WholeItems(env, request, groups[0], 0);
      if first.Err? then first else Prepend(first.value, AllWhole(env, request, groups[1..]))
  }

  /** Some item of the group's file is exactly its k-th span. */
  ghost predicate SpanShown(items: seq<ContextItem>, g: Group, k: nat)
    requires k < |g.spans|
  {
    exists j :: 0 <= j < |items| && IsSpan(items[j], g, k)
  }

  ghost predicate IsSpan(item: ContextItem, g: Group, k: nat)
    requires k < |g.spans|
  {
    item.file == g.candidate.file && item.start == g.spans[k].start && item.end == g.spans[k].end
  }

  ghost predicate AllShown(items: seq<ContextItem>, groups: seq<Group>) {
    forall i, k: nat :: 0 <= i < |groups| && k < |groups[i].spans| ==> SpanShown(items, groups[i], k)
  }

  lemma ShownAmong(a: seq<ContextItem>, b: seq<ContextItem>, g: Group, k: nat)
    requires k < |g.spans| && (SpanShown(a, g, k) || SpanShown(b, g, k))
    ensures SpanShown(a + b, g, k)
  {
    if SpanShown(a, g, k) {
      var j :| 0 <= j < |a| && IsSpan(a[j], g, k);
      assert (a + b)[j] == a[j];
    } else {
      var j :| 0 <= j < |b| && IsSpan(b[j], g, k);
      assert (a + b)[|a| + j] == b[j];
    }
  }

  lemma FirstShown(g: Group, items: seq<ContextItem>, k: nat)
    requires WholeFrom(g, 0, items) && k < |g.spans|
    ensures SpanShown(items, g, k)
  {
    assert IsSpan(items[k], g, k);
  }

  lemma ShownPrepended(groups: seq<Group>, first: seq<ContextItem>, rest: seq<ContextItem>)
    requires groups != [] && WholeFrom(groups[0], 0, first) && AllShown(rest, groups[1..])
    ensures AllShown(first + rest, groups)
  {
    hide SpanShown, WholeFrom;
    forall i, k: nat | 0 <= i < |groups| && k < |groups[i].spans| ensures SpanShown(first + rest, groups[i], k) {
      if i == 0 {
        FirstShown(groups[0], first, k);
      } else {
        assert groups[1..][i - 1] == groups[i];
      }
      ShownAmong(first, rest, groups[i], k);
    }
  }

  lemma {:induction false} NoSpansNothing(env: Env, request: Request, groups: seq<Group>)
    requires InFiles(groups) && AllSpans(groups) == 0
    ensures AllWhole(env, request, groups) == Ok([]) && AllShown([], groups)
  {
    hide SpansInFile;
    if groups != [] {
      NoSpansNothing(env, request, groups[1..]);
      var none: seq<ContextItem> := [];
      assert none + none == none && WholeItems(env, request, groups[0], 0) == Ok(none);
      forall i, k: nat | 0 <= i < |groups| && k < |groups[i].spans| ensures SpanShown([], groups[i], k) {
        assert i > 0;
        assert groups[1..][i - 1] == groups[i];
      }
    }
  }

  /** With budget for all spans of all files, packing emits every one of them whole, whatever the budget is. */
  lemma {:induction false} AllSpansWhole(env: Env, request: Request, groups: seq<Group>, remaining: nat, have: nat)
    requires PackableGroups(groups) && InFiles(groups) && Ample(groups, remaining, have)
    ensures var r := PackGroups(env, request, groups, remaining, have);
            r == AllWhole(env, request, groups) && r.Ok? && AllShown(r.value, groups)
  {
    hide PackableGroup, SpansInFile, SpansFitItems, PackSpans, WholeItems, WholeFrom, AllShown;
    if groups == [] || have >= MAX_CONTEXT_ITEMS {
      NoSpansNothing(env, request, groups);
    } else {
      PackableTail(groups);
      AmpleTail(groups, remaining, have);
      WholeSpansWhenBudgetSuffices(env, request, groups[0], 0, remaining, have);
      var first := PackSpans(env, request, groups[0], 0, remaining, have).value;
      WholeCount(groups[0], first);
      AllSpansWhole(env, request, groups[1..], remaining - TokenSum(first), have + |first|);
      ShownPrepended(groups, first, AllWhole(env, request, groups[1..]).value);
    }
  }

  lemma WholeCount(g: Group, items: seq<ContextItem>)
    requires WholeFrom(g, 0, items)
    ensures |items| == |g.spans|
  {
  }

  lemma AmpleTail(groups: seq<Group>, remaining: int, have: nat)
    requires InFiles(groups) && Ample(groups, remaining, have) && groups != []
    ensures InFiles(groups[1..]) && SpansInFile(groups[0]) && SpansFitItems(groups[0], 0)
    ensures SpanBytes(groups[0], 0) <= remaining && have + |groups[0].spans| <= MAX_CONTEXT_ITEMS
    ensures Ample(groups[1..], remaining - SpanBytes(groups[0], 0), have + |groups[0].spans|)
  {
    hide SpansInFile, SpansFitItems, SpanBytes;
  }

  lemma {:induction false} WholeItemsCount(env: Env, request: Request, g: Group, k: nat)
    requires SpansInFile(g) && k <= |g.spans|
    ensures var r := WholeItems(env, request, g, k); r.Ok? ==> |r.value| == |g.spans| - k
    decreases |g.spans| - k
  {
    hide NewItem, ContentOf;
    if k < |g.spans| { WholeItemsCount(env, request, g, k + 1); }
  }

  /** One item for each span, and no others. */
  lemma {:induction false} AllWholeCount(env: Env, request: Request, groups: seq<Group>)
    requires InFiles(groups)
    ensures var r := AllWhole(env, request, groups); r.Ok? ==> |r.value| == AllSpans(groups)
  {
    hide SpansInFile, WholeItems;
    if groups != [] {
      WholeItemsCount(env, request, groups[0], 0);
      AllWholeCount(env, request, groups[1..]);
    }
  }

  // ----- the bundle -----

  /** The groups of a request whose files are unchanged, as the assembly makes them. */
  lemma RequestGroups(env: Env, request: Request)
    requires Accepted(request) && Unchanged(env, request)
    ensures forall i :: 0 <= i < |request.candidates| ==> request.candidates[i].file in request.files
    ensures var groups := Groups(env, request, request.candidates);
            groups.Ok? && PackableGroups(groups.value) && InFiles(groups.value)
  {
    hide Accepted, Known, GoodGroups, DistinctGroups, Groups, PackableGroup, SpansInFile;
    KnownGroups(env, request);
    GroupsArePackable(env, request, Groups(env, request, request.candidates).value);
  }

  /** The budget of the request and the item count suffice for every window of every file. */
  ghost predicate AmpleBudget(env: Env, request: Request) {
    && (forall i :: 0 <= i < |request.candidates| ==> request.candidates[i].file in request.files)
    && var groups := Groups(env, request, request.candidates);
       groups.Ok? && InFiles(groups.value) && Ample(groups.value, request.budget, 0)
  }

  /** With an ample budget the packed items are all windows of all files, whole. */
  lemma AmpleShowsAll(env: Env, request: Request)
    requires Accepted(request) && Unchanged(env, request) && AmpleBudget(env, request)
    ensures var groups := Groups(env, request, request.candidates).value;
            && InFiles(groups) && Packed(env, request) == AllWhole(env, request, groups)
            && Packed(env, request).Ok? && AllShown(Packed(env, request).value, groups)
            && |Packed(env, request).value| == AllSpans(groups)
  {
    hide Accepted, Known, Groups, PackGroups, AllWhole, AllShown, AllSpans, PackableGroups, SpansInFile, Ample;
    RequestGroups(env, request);
    FirstProblemIff(env, request, request.candidates);
    AllSpansWhole(env, request, Groups(env, request, request.candidates).value, request.budget, 0);
    AllWholeCount(env, request, Groups(env, request, request.candidates).value);
  }

  /** Each candidate's own group, when it has one, is among the groups. */
  lemma {:induction false} GroupAmong(env: Env, request: Request, cs: seq<CandidateFile>, i: nat)
    requires i < |cs| && forall k :: 0 <= k < |cs| ==> cs[k].file in request.files
    requires Groups(env, request, cs).Ok?
    ensures var g := GroupOf(env, request, cs[i]);
            g.Ok? && (g.value.Some? ==> g.value.value in Groups(env, request, cs).value)
  {
    hide GroupOf;
    var n := |cs| - 1;
    if i < n {
      assert cs[..n][i] == cs[i];
      GroupAmong(env, request, cs[..n], i);
    }
  }

  /** Every located line lies in a selected and merged window. */
  lemma FoundLineSpanned(env: Env, lines: seq<string>, symbols: seq<Symbol>, line: int)
    requires lines != [] && |symbols| <= MAX_SYMBOLS && line in FoundLines(env, lines, symbols)
    ensures var spans := FileSpans(FoundLines(env, lines, symbols), |lines|);
            exists k :: 0 <= k < |spans| && spans[k].Covers(line)
  {
    hide FileSpans, FoundLines, ChosenLines, Disjoint, SameLines;
    var found := FoundLines(env, lines, symbols);
    FileSpansGood(found, |lines|);
    EveryFoundLineChosen(found, |lines|);
    var spans := FileSpans(found, |lines|);
    assert CarriedBy(spans, line);
    var k :| 0 <= k < |spans| && spans[k].Carries(line);
    assert spans[k].Covers(line);
  }

  /** Some item shows the line of the file. */
  ghost predicate LineShown(items: seq<ContextItem>, file: Identity, line: int) {
    exists j :: 0 <= j < |items| && items[j].file == file && items[j].start <= line <= items[j].end
  }

  lemma SpanShowsLine(items: seq<ContextItem>, g: Group, k: nat, line: int)
    requires k < |g.spans| && SpanShown(items, g, k) && g.spans[k].Covers(line)
    ensures LineShown(items, g.candidate.file, line)
  {
  }

  lemma GroupLineShown(env: Env, items: seq<ContextItem>, groups: seq<Group>, g: Group, line: int)
    requires g in groups && AllShown(items, groups) && g.lines != [] && |g.candidate.symbols| <= MAX_SYMBOLS
    requires g.spans == FileSpans(FoundLines(env, g.lines, g.candidate.symbols), |g.lines|)
    requires line in FoundLines(env, g.lines, g.candidate.symbols)
    ensures LineShown(items, g.candidate.file, line)
  {
    hide FileSpans, FoundLines, SpanShown, LineShown;
    FoundLineSpanned(env, g.lines, g.candidate.symbols, line);
    var i :| 0 <= i < |groups| && groups[i] == g;
    var k :| 0 <= k < |g.spans| && g.spans[k].Covers(line);
    SpanShowsLine(items, g, k, line);
  }

  /**
   With an ample budget the bundle shows every located line of every candidate: each line on
   which one of the candidate's symbols was found lies in an item of its file.
   */
  lemma AllTargetsShown(env: Env, request: Request, i: nat, symbol: Symbol, line: int)
    requires Accepted(request) && AmpleBudget(env, request) && Assembled(env, request).Ok?
    requires i < |request.candidates| && symbol in request.candidates[i].symbols
    requires var read := ReadLines(env, request.candidates[i].file, request.files[request.candidates[i].file]);
             read.Ok? && read.value.Some? && LocatedOn(env, read.value.value, symbol, line)
    ensures LineShown(Assembled(env, request).value.items, request.candidates[i].file, line)
  {
    hide Accepted, Known, Groups, FileSpans, FoundLines, ReadLines, Packed, Assembled, Ample, InFiles, AllShown,
         LineShown, GoodBundle, DigestsCollide, AllWhole, Unchanged, LocatedOn;
    AssembledGood(env, request);
    AssemblySucceeds(env, request);
    AmpleShowsAll(env, request);
    AcceptedSymbols(request);
    GroupAmong(env, request, request.candidates, i);
    var read := ReadLines(env, request.candidates[i].file, request.files[request.candidates[i].file]);
    FoundLinesAre(env, read.value.value, request.candidates[i].symbols, line);
    FoundInLines(env, read.value.value, request.candidates[i].symbols, line);
    var g := GroupOf(env, request, request.candidates[i]).value.value;
    GroupLineShown(env, Packed(env, request).value, Groups(env, request, request.candidates).value, g, line);
  }

  lemma FoundInLines(env: Env, lines: seq<string>, symbols: seq<Symbol>, line: int)
    requires line in FoundLines(env, lines, symbols)
    ensures lines != []
  {
  }

  // ----- the budget -----

  lemma {:induction false} SameWholeItems(env: Env, request: Request, budget: nat, g: Group, k: nat)
    requires SpansInFile(g) && k <= |g.spans|
    ensures WholeItems(env, request.(budget := budget), g, k) == WholeItems(env, request, g, k)
    decreases |g.spans| - k
  {
    hide SpansInFile, ContentOf, ItemIdentity, Encode;
    if k < |g.spans| {
      SpanInFile(g, k);
      SameWholeItems(env, request, budget, g, k + 1);
    }
  }

  lemma {:induction false} SameAllWhole(env: Env, request: Request, budget: nat, groups: seq<Group>)
    requires InFiles(groups)
    ensures AllWhole(env, request.(budget := budget), groups) == AllWhole(env, request, groups)
  {
    hide SpansInFile, WholeItems;
    if groups != [] {
      SameWholeItems(env, request, budget, groups[0], 0);
      SameAllWhole(env, request, budget, groups[1..]);
    }
  }

  lemma {:induction false} SameGroups(env: Env, request: Request, budget: nat, cs: seq<CandidateFile>)
    requires forall i :: 0 <= i < |cs| ==> cs[i].file in request.files
    ensures Groups(env, request.(budget := budget), cs) == Groups(env, request, cs)
  {
    hide ReadLines, FileSpans, FoundLines;
    if cs != [] { SameGroups(env, request, budget, cs[..|cs| - 1]); }
  }

  lemma AcceptedBudget(request: Request)
    requires Accepted(request)
    ensures 1 <= request.budget
  {
  }

  lemma SameChecks(env: Env, request: Request, budget: nat)
    requires Accepted(request) && Unchanged(env, request) && 1 <= budget <= MAX_TOKEN_BUDGET
    ensures Accepted(request.(budget := budget)) && Unchanged(env, request.(budget := budget))
  {
    hide GenuineRanks, DistinctIds, ReadLines, CandidateIdentity;
    var other := request.(budget := budget);
    forall i | 0 <= i < |other.candidates| ensures Problem(env, other, other.candidates[i]).None? {
      assert Problem(env, request, request.candidates[i]).None?;
    }
    KnownInFiles(env, request, request.candidates);
  }

  /** Once the budget is ample, raising it changes nothing but the budget: the bundle has the very same items. */
  lemma LargerBudgetSameItems(env: Env, request: Request, budget: nat)
    requires Accepted(request) && AmpleBudget(env, request) && Assembled(env, request).Ok?
    requires request.budget <= budget <= MAX_TOKEN_BUDGET
    ensures var other := Assembled(env, request.(budget := budget));
            other.Ok? && other.value.items == Assembled(env, request).value.items && other.value.maxTokens == budget
  {
    hide Accepted, Groups, Packed, Assembled, AllFitItems, InFiles, AllShown, AllBytes, AllSpans, AllWhole,
         DigestsCollide, ShowsItsFile, NoLineTwice, UniqueItems, TokenSum, Unchanged;
    var other := request.(budget := budget);
    AssembledGood(env, request);
    AssemblySucceeds(env, request);
    AcceptedBudget(request);
    SameChecks(env, request, budget);
    SameGroups(env, request, budget, request.candidates);
    AmpleShowsAll(env, request);
    AmpleShowsAll(env, other);
    SameAllWhole(env, request, budget, Groups(env, request, request.candidates).value);
    AssemblySucceeds(env, other);
    AssembledGood(env, other);
  }
}
