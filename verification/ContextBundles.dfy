/** What packing promises for every accepted request, and the assembly method. */
module ContextBundles {
  import opened Prelude
  import opened SourceLines
  import opened Utf8
  import opened Identities
  import opened Ranking
  import opened Windows
  import opened SpanFitting
  import opened ContextAssembly

  ghost predicate PackableGroup(g: Group) {
    && GoodGroup(g) && |g.lines| <= MAX_LINE_NUMBER
  }

  /** The item shows exactly the named lines of the group's file, whole, within one span. */
  ghost predicate ExactItem(env: Env, request: Request, g: Group, item: ContextItem) {
    && item.candidate == g.candidate.id && item.file == g.candidate.file
    && item.repository == request.repository && item.revision == request.revision
    && 1 <= item.start <= item.end <= |g.lines|
    && item.content == ContentOf(g.lines, item.start, item.end)
    && item.tokens == |Encode(item.content)| && 1 <= item.tokens <= MAX_CONTEXT_BYTES
    && item.contentSha == env.hash(Encode(item.content))
    && BoundedKey(ItemKeyOf(item)) && item.id == ItemIdentity(env.hash, ItemKeyOf(item))
    && exists k :: 0 <= k < |g.spans| && FromSpan(g.spans[k], item)
  }

  /** The item lies inside the span and, when the span has a primary target, shows its line. */
  ghost predicate FromSpan(span: Proposal, item: ContextItem) {
    && span.start <= item.start <= item.end <= span.end
    && (span.target.Some? ==> item.start <= span.target.value <= item.end)
  }

  ghost predicate NoLineTwice(items: seq<ContextItem>) {
    forall i, j :: 0 <= i < j < |items| && items[i].file == items[j].file ==> items[i].end < items[j].start
  }

  lemma {:induction false} JoinLength(lines: seq<string>)
    requires forall i :: 0 <= i < |lines| ==> lines[i] != ""
    ensures |Join(lines)| >= |lines|
  {
    if lines != [] { JoinLength(lines[1..]); }
  }

  lemma SliceContent(lines: seq<string>, lo: int, hi: int)
    requires 1 <= lo <= hi <= |lines| && Canonical(lines)
    ensures ContentOf(lines, lo, hi) != "" && |Encode(ContentOf(lines, lo, hi))| >= 1
    ensures |Encode(ContentOf(lines, lo, hi))| == Bytes(LinePrefix(lines), lo, hi)
  {
    SliceBytes(lines, lo, hi);
    var slice := lines[lo - 1..hi];
    assert slice[0] == lines[lo - 1] && IsLine(lines[lo - 1]);
    assert Join(slice) == slice[0] + Join(slice[1..]);
    EncodeLength(Join(slice));
  }

  lemma FittedFromSpan(g: Group, k: nat, capacity: int)
    requires PackableGroup(g) && k < |g.spans|
    requires Fitted(g.spans[k], LinePrefix(g.lines), capacity).Some?
    ensures var (lo, hi) := Fitted(g.spans[k], LinePrefix(g.lines), capacity).value;
            && 1 <= g.spans[k].start <= lo <= hi <= g.spans[k].end <= |g.lines|
            && Bytes(LinePrefix(g.lines), lo, hi) <= capacity
            && (g.spans[k].target.Some? ==> lo <= g.spans[k].target.value <= hi)
  {
    var span, prefix := g.spans[k], LinePrefix(g.lines);
    FittedInside(span, prefix, capacity);
    if span.target.Some? {
      assert span.Carries(span.target.value);
      assert forall i :: 0 <= i < |g.lines| ==> IsLine(g.lines[i]);
      PrefixRises(g.lines);
      FittedKeepsTargets(span, prefix, capacity);
    }
  }

  /** A fitted span always passes the item constructor. */
  lemma FittedItemOk(env: Env, request: Request, g: Group, k: nat, capacity: int)
    requires PackableGroup(g) && k < |g.spans| && capacity <= MAX_CONTEXT_BYTES
    requires Fitted(g.spans[k], LinePrefix(g.lines), capacity).Some?
    ensures var (lo, hi) := Fitted(g.spans[k], LinePrefix(g.lines), capacity).value;
            && 1 <= g.spans[k].start <= lo <= hi <= g.spans[k].end <= |g.lines|
            && var item := NewItem(env, request, g.candidate, lo, hi, ContentOf(g.lines, lo, hi));
            && item.Ok? && ExactItem(env, request, g, item.value)
            && item.value.start == lo && item.value.end == hi && item.value.tokens <= capacity
  {
    var (lo, hi) := Fitted(g.spans[k], LinePrefix(g.lines), capacity).value;
    FittedFromSpan(g, k, capacity);
    SliceContent(g.lines, lo, hi);
    var item := NewItem(env, request, g.candidate, lo, hi, ContentOf(g.lines, lo, hi)).value;
    assert FromSpan(g.spans[k], item);
  }

  /** Packing one group: exact items from ever later spans, within the budget. */
  ghost predicate GoodItems(env: Env, request: Request, g: Group, first: int, items: seq<ContextItem>) {
    && (forall i :: 0 <= i < |items| ==> ExactItem(env, request, g, items[i]) && first <= items[i].start)
    && (forall i, j :: 0 <= i < j < |items| ==> items[i].end < items[j].start)
  }

  lemma ExactItemRange(env: Env, request: Request, g: Group, item: ContextItem)
    requires ExactItem(env, request, g, item)
    ensures 1 <= item.start <= item.end
  {
    hide ItemIdentity, BoundedKey;
  }

  lemma GoodItemsPrepended(env: Env, request: Request, g: Group, first: int, item: ContextItem, rest: seq<ContextItem>)
    requires ExactItem(env, request, g, item) && first <= item.start
    requires GoodItems(env, request, g, item.end + 1, rest)
    ensures GoodItems(env, request, g, first, [item] + rest)
  {
    hide ExactItem;
    assert item.start <= item.end by { ExactItemRange(env, request, g, item); }
    var items := [item] + rest;
    forall i, j | 0 <= i < j < |items|
      ensures items[i].end < items[j].start
    {
      assert items[j] == rest[j - 1];
      if i > 0 { assert items[i] == rest[i - 1]; }
    }
  }

  ghost predicate SpansPacked(env: Env, request: Request, g: Group, remaining: int, have: nat, first: int,
        r: Result<seq<ContextItem>, ContextError>) {
    && r.Ok? && GoodItems(env, request, g, first, r.value)
    && TokenSum(r.value) <= remaining
    && have + |r.value| <= Max(have, MAX_CONTEXT_ITEMS)
  }

  lemma SpansPackedPrepend(env: Env, request: Request, g: Group, remaining: int, have: nat, first: int,
        item: ContextItem, r: Result<seq<ContextItem>, ContextError>)
    requires ExactItem(env, request, g, item) && first <= item.start && have < MAX_CONTEXT_ITEMS
    requires SpansPacked(env, request, g, remaining - item.tokens, have + 1, item.end + 1, r)
    ensures SpansPacked(env, request, g, remaining, have, first, Prepend([item], r))
  {
    hide ExactItem, GoodItems;
    GoodItemsPrepended(env, request, g, first, item, r.value);
    assert ([item] + r.value)[1..] == r.value;
  }

  lemma NoSpansPacked(env: Env, request: Request, g: Group, remaining: nat, have: nat, first: int)
    ensures SpansPacked(env, request, g, remaining, have, first, Ok([]))
  {
  }

  lemma SpansAscend(g: Group, k: nat)
    requires PackableGroup(g) && k < |g.spans|
    ensures SpansInFile(g)
    ensures k + 1 < |g.spans| ==> g.spans[k].start <= g.spans[k].end < g.spans[k + 1].start
  {
  }

  lemma {:induction false} PackSpansGood(env: Env, request: Request, g: Group, k: nat, remaining: nat, have: nat,
        first: int)
    requires PackableGroup(g) && k <= |g.spans|
    requires k < |g.spans| ==> first <= g.spans[k].start
    ensures SpansPacked(env, request, g, remaining, have, first, PackSpans(env, request, g, k, remaining, have))
    decreases |g.spans| - k
  {
    hide GoodItems, ExactItem, NewItem, Fitted, Encode, Join, LinePrefix, GoodGroup;
    if k < |g.spans| && have < MAX_CONTEXT_ITEMS {
      SpansAscend(g, k);
      var capacity := Min(remaining, MAX_CONTEXT_BYTES);
      var fitted := Fitted(g.spans[k], LinePrefix(g.lines), capacity);
      if fitted.None? {
        PackSpansGood(env, request, g, k + 1, remaining, have, first);
      } else {
        var (lo, hi) := fitted.value;
        FittedItemOk(env, request, g, k, capacity);
        var item := NewItem(env, request, g.candidate, lo, hi, ContentOf(g.lines, lo, hi)).value;
        PackSpansGood(env, request, g, k + 1, remaining - item.tokens, have + 1, hi + 1);
        SpansPackedPrepend(env, request, g, remaining, have, first, item,
                           PackSpans(env, request, g, k + 1, remaining - item.tokens, have + 1));
      }
    } else {
      NoSpansPacked(env, request, g, remaining, have, first);
    }
  }

  lemma {:induction false} TokenSumAppend(a: seq<ContextItem>, b: seq<ContextItem>)
    ensures TokenSum(a + b) == TokenSum(a) + TokenSum(b)
  {
    if a == [] {
      assert a + b == b;
    } else {
      assert (a + b)[1..] == a[1..] + b;
      TokenSumAppend(a[1..], b);
    }
  }

  // ----- all groups -----

  ghost predicate PackableGroups(groups: seq<Group>) {
    && (forall i :: 0 <= i < |groups| ==> PackableGroup(groups[i]) && SpansInFile(groups[i]))
    && (forall i, j :: 0 <= i < j < |groups| ==> groups[i].candidate.file != groups[j].candidate.file)
  }

  /** Every item is exact for some group, and no line of any file appears twice. */
  ghost predicate GoodPacking(env: Env, request: Request, groups: seq<Group>, items: seq<ContextItem>) {
    && (forall i :: 0 <= i < |items| ==> exists k :: 0 <= k < |groups| && ExactItem(env, request, groups[k], items[i]))
    && NoLineTwice(items)
  }

  lemma GoodPackingConcat(env: Env, request: Request, groups: seq<Group>, first: seq<ContextItem>,
        rest: seq<ContextItem>)
    requires PackableGroups(groups) && groups != []
    requires GoodItems(env, request, groups[0], 1, first) && GoodPacking(env, request, groups[1..], rest)
    ensures GoodPacking(env, request, groups, first + rest)
  {
    var items := first + rest;
    forall i | 0 <= i < |items|
      ensures exists k :: 0 <= k < |groups| && ExactItem(env, request, groups[k], items[i])
      ensures i >= |first| ==> items[i].file != groups[0].candidate.file
    {
      if i < |first| {
        assert ExactItem(env, request, groups[0], items[i]);
      } else {
        var k :| 0 <= k < |groups[1..]| && ExactItem(env, request, groups[1..][k], rest[i - |first|]);
        assert groups[1..][k] == groups[k + 1];
      }
    }
  }

  ghost predicate GroupsPacked(env: Env, request: Request, groups: seq<Group>, remaining: int, have: nat,
        r: Result<seq<ContextItem>, ContextError>) {
    && r.Ok? && GoodPacking(env, request, groups, r.value)
    && TokenSum(r.value) <= remaining
    && have + |r.value| <= Max(have, MAX_CONTEXT_ITEMS)
  }

  lemma GroupsPackedPrepend(env: Env, request: Request, groups: seq<Group>, remaining: int, have: nat,
                            first: Result<seq<ContextItem>, ContextError>, rest: Result<seq<ContextItem>, ContextError>)
    requires PackableGroups(groups) && groups != [] && have < MAX_CONTEXT_ITEMS
    requires SpansPacked(env, request, groups[0], remaining, have, 1, first)
    requires GroupsPacked(env, request, groups[1..], remaining - TokenSum(first.value), have + |first.value|, rest)
    ensures GroupsPacked(env, request, groups, remaining, have, Prepend(first.value, rest))
  {
    GoodPackingConcat(env, request, groups, first.value, rest.value);
    TokenSumAppend(first.value, rest.value);
  }

  lemma NoGroupsPacked(env: Env, request: Request, groups: seq<Group>, remaining: nat, have: nat)
    ensures GroupsPacked(env, request, groups, remaining, have, Ok([]))
  {
  }

  lemma PackableTail(groups: seq<Group>)
    requires PackableGroups(groups) && groups != []
    ensures PackableGroups(groups[1..]) && PackableGroup(groups[0])
  {
  }

  lemma {:induction false} PackGroupsGood(env: Env, request: Request, groups: seq<Group>, remaining: nat, have: nat)
    requires PackableGroups(groups)
    ensures GroupsPacked(env, request, groups, remaining, have, PackGroups(env, request, groups, remaining, have))
  {
    hide GoodPacking, PackSpans, GoodItems;
    if groups != [] && have < MAX_CONTEXT_ITEMS {
      PackableTail(groups);
      PackSpansGood(env, request, groups[0], 0, remaining, have, 1);
      var first := PackSpans(env, request, groups[0], 0, remaining, have);
      PackGroupsGood(env, request, groups[1..], remaining - TokenSum(first.value), have + |first.value|);
      GroupsPackedPrepend(env, request, groups, remaining, have, first,
                          PackGroups(env, request, groups[1..], remaining - TokenSum(first.value),
                                     have + |first.value|));
    } else {
      NoGroupsPacked(env, request, groups, remaining, have);
    }
  }

  // ----- packing is greedy -----

  /** How many leading items start before the line. */
  function ItemsBefore(items: seq<ContextItem>, line: int): (n: nat)
    ensures n <= |items|
  {
    if items == [] || items[0].start >= line then 0 else 1 + ItemsBefore(items[1..], line)
  }

  /** What fits of the span once the first n items have been paid for. */
  function FittedAfter(g: Group, j: nat, remaining: int, items: seq<ContextItem>, n: nat): Option<(int, int)>
    requires SpansInFile(g) && j < |g.spans| && n <= |items|
  {
    Fitted(g.spans[j], LinePrefix(g.lines), Min(remaining - TokenSum(items[..n]), MAX_CONTEXT_BYTES))
  }

  /**
   The span got the item that fits the capacity left by the items of earlier spans, or was skipped
   because nothing fitted, or comes after the last item that the item count allows.
   */
  ghost predicate Served(g: Group, j: nat, remaining: int, have: nat, items: seq<ContextItem>)
    requires SpansInFile(g) && j < |g.spans|
  {
    var n := ItemsBefore(items, g.spans[j].start);
    var fitted := FittedAfter(g, j, remaining, items, n);
    if have + n >= MAX_CONTEXT_ITEMS then n == |items|
    else if fitted.None? then n < |items| ==> g.spans[j].end < items[n].start
    else n < |items| && fitted == Some((items[n].start, items[n].end))
  }

  ghost predicate AllServed(g: Group, from: nat, remaining: int, have: nat, items: seq<ContextItem>)
    requires SpansInFile(g)
  {
    forall j :: from <= j < |g.spans| ==> Served(g, j, remaining, have, items)
  }

  lemma ItemsFromLine(items: seq<ContextItem>, line: int)
    requires items == [] || line <= items[0].start
    ensures ItemsBefore(items, line) == 0
  {
  }

  lemma ServedAfterItem(g: Group, j: nat, remaining: int, have: nat, item: ContextItem, rest: seq<ContextItem>)
    requires SpansInFile(g) && j < |g.spans| && item.start < g.spans[j].start
    requires Served(g, j, remaining - item.tokens, have + 1, rest)
    ensures Served(g, j, remaining, have, [item] + rest)
  {
    hide Fitted, SpansInFile;
    var items, n := [item] + rest, ItemsBefore(rest, g.spans[j].start);
    assert items[1..] == rest && items[..n + 1][1..] == rest[..n] && items[..n + 1][0] == item;
  }

  lemma ServedFirst(g: Group, k: nat, remaining: int, have: nat, items: seq<ContextItem>)
    requires SpansInFile(g) && k < |g.spans| && have < MAX_CONTEXT_ITEMS
    requires items == [] || g.spans[k].start <= items[0].start
    requires var fitted := Fitted(g.spans[k], LinePrefix(g.lines), Min(remaining, MAX_CONTEXT_BYTES));
             if fitted.None? then items == [] || g.spans[k].end < items[0].start
             else items != [] && fitted == Some((items[0].start, items[0].end))
    ensures Served(g, k, remaining, have, items)
  {
    hide Fitted, SpansInFile;
    ItemsFromLine(items, g.spans[k].start);
  }

  lemma NothingServed(g: Group, from: nat, remaining: int, have: nat)
    requires SpansInFile(g) && (from >= |g.spans| || have >= MAX_CONTEXT_ITEMS)
    ensures AllServed(g, from, remaining, have, [])
  {
    hide Fitted, SpansInFile;
  }

  lemma LaterSpansStart(g: Group, k: nat)
    requires PackableGroup(g) && k < |g.spans|
    ensures SpansInFile(g) && forall j :: k < j < |g.spans| ==> g.spans[k].end < g.spans[j].start
  {
  }

  lemma ItemServes(g: Group, k: nat, remaining: int, have: nat, item: ContextItem, rest: seq<ContextItem>)
    requires PackableGroup(g) && SpansInFile(g) && k < |g.spans| && have < MAX_CONTEXT_ITEMS
    requires Fitted(g.spans[k], LinePrefix(g.lines), Min(remaining, MAX_CONTEXT_BYTES)) == Some((item.start, item.end))
    requires g.spans[k].start <= item.start <= g.spans[k].end
    requires AllServed(g, k + 1, remaining - item.tokens, have + 1, rest)
    ensures AllServed(g, k, remaining, have, [item] + rest)
  {
    hide Fitted, SpansInFile, Served, PackableGroup;
    LaterSpansStart(g, k);
    forall j | k <= j < |g.spans| ensures Served(g, j, remaining, have, [item] + rest) {
      if j == k {
        ServedFirst(g, k, remaining, have, [item] + rest);
      } else {
        ServedAfterItem(g, j, remaining, have, item, rest);
      }
    }
  }

  /** Greedy packing: every span gets what fits when its turn comes, and is passed over only when nothing does. */
  lemma {:induction false} PackSpansGreedy(env: Env, request: Request, g: Group, k: nat, remaining: nat, have: nat)
    requires PackableGroup(g) && SpansInFile(g) && k <= |g.spans|
    ensures var r := PackSpans(env, request, g, k, remaining, have);
            r.Ok? && AllServed(g, k, remaining, have, r.value)
    decreases |g.spans| - k
  {
    hide ExactItem, NewItem, Fitted, Encode, Join, LinePrefix, PackableGroup, SpansInFile, Served;
    if k < |g.spans| && have < MAX_CONTEXT_ITEMS {
      LaterSpansStart(g, k);
      var fitted := Fitted(g.spans[k], LinePrefix(g.lines), Min(remaining, MAX_CONTEXT_BYTES));
      if fitted.None? {
        PackSpansGreedy(env, request, g, k + 1, remaining, have);
        var rest := PackSpans(env, request, g, k + 1, remaining, have).value;
        PackSpansGood(env, request, g, k + 1, remaining, have, g.spans[k].end + 1);
        SpanInFile(g, k);
        ServedFirst(g, k, remaining, have, rest);
      } else {
        var (lo, hi) := fitted.value;
        FittedItemOk(env, request, g, k, Min(remaining, MAX_CONTEXT_BYTES));
        var item := NewItem(env, request, g.candidate, lo, hi, ContentOf(g.lines, lo, hi)).value;
        PackSpansGreedy(env, request, g, k + 1, remaining - item.tokens, have + 1);
        ItemServes(g, k, remaining, have, item, PackSpans(env, request, g, k + 1, remaining - item.tokens,
                                                          have + 1).value);
      }
    } else {
      NothingServed(g, k, remaining, have);
    }
  }

  lemma SpanInFile(g: Group, k: nat)
    requires SpansInFile(g) && k < |g.spans|
    ensures 1 <= g.spans[k].start <= g.spans[k].end <= |g.lines|
  {
  }

  /** The items are those of the first group, greedily packed, and then those of the others within what is left. */
  ghost predicate GreedilyPacked(groups: seq<Group>, remaining: int, have: nat, items: seq<ContextItem>)
    requires forall i :: 0 <= i < |groups| ==> SpansInFile(groups[i])
    decreases |groups|, 1
  {
    if groups == [] then items == []
    else exists m: nat :: m <= |items| && FirstPacked(groups, remaining, have, items, m)
  }

  ghost predicate FirstPacked(groups: seq<Group>, remaining: int, have: nat, items: seq<ContextItem>, m: nat)
    requires forall i :: 0 <= i < |groups| ==> SpansInFile(groups[i])
    requires groups != [] && m <= |items|
    decreases |groups|, 0
  {
    && (forall i :: 0 <= i < m ==> items[i].candidate == groups[0].candidate.id)
    && AllServed(groups[0], 0, remaining, have, items[..m])
    && GreedilyPacked(groups[1..], remaining - TokenSum(items[..m]), have + m, items[m..])
  }

  lemma {:induction false} NothingPacked(groups: seq<Group>, remaining: int, have: nat)
    requires forall i :: 0 <= i < |groups| ==> SpansInFile(groups[i])
    requires groups == [] || have >= MAX_CONTEXT_ITEMS
    ensures GreedilyPacked(groups, remaining, have, [])
  {
    hide SpansInFile, AllServed;
    if groups != [] {
      var none: seq<ContextItem> := [];
      NothingServed(groups[0], 0, remaining, have);
      NothingPacked(groups[1..], remaining, have);
      assert none[..0] == none && none[0..] == none;
      assert FirstPacked(groups, remaining, have, none, 0);
    }
  }

  /** Packing all groups is greedy too: each group is served from what the groups before it left. */
  lemma {:induction false} PackGroupsGreedy(env: Env, request: Request, groups: seq<Group>, remaining: nat, have: nat)
    requires PackableGroups(groups)
    ensures var r := PackGroups(env, request, groups, remaining, have);
            r.Ok? && GreedilyPacked(groups, remaining, have, r.value)
  {
    hide PackableGroup, SpansInFile, AllServed, ExactItem, PackSpans;
    if groups == [] || have >= MAX_CONTEXT_ITEMS {
      NothingPacked(groups, remaining, have);
    } else {
      PackableTail(groups);
      var first := PackSpans(env, request, groups[0], 0, remaining, have);
      PackSpansGreedy(env, request, groups[0], 0, remaining, have);
      if groups[0].spans != [] { SpanInFile(groups[0], 0); }
      PackSpansGood(env, request, groups[0], 0, remaining, have, 1);
      OfCandidate(env, request, groups[0], 1, first.value);
      var left, count := remaining - TokenSum(first.value), have + |first.value|;
      PackGroupsGreedy(env, request, groups[1..], left, count);
      var items := first.value + PackGroups(env, request, groups[1..], left, count).value;
      assert items[..|first.value|] == first.value;
      assert FirstPacked(groups, remaining, have, items, |first.value|);
    }
  }

  lemma OfCandidate(env: Env, request: Request, g: Group, first: int, items: seq<ContextItem>)
    requires GoodItems(env, request, g, first, items)
    ensures forall i :: 0 <= i < |items| ==> items[i].candidate == g.candidate.id
  {
    hide ItemIdentity, BoundedKey, FromSpan;
  }

  // ----- from candidates to groups -----

  /** The three request checks of one candidate, in order. */
  function Problem(env: Env, request: Request, c: CandidateFile): Option<ContextError> {
    if c.repository != request.repository || c.revision != request.revision then Some(CandidateIndexMismatch)
    else if c.file !in request.files then Some(UnknownCandidateFile)
    else if c.id != CandidateIdentity(env.hash, request.repository, request.revision, c.file)
    then Some(InvalidCandidate)
    else None
  }

  function FirstProblem(env: Env, request: Request, cs: seq<CandidateFile>): Option<ContextError> {
    if cs == [] then None
    else
      var problem := Problem(env, request, cs[0]);
      if problem.Some? then problem else FirstProblem(env, request, cs[1..])
  }

  lemma {:induction false} FirstProblemIff(env: Env, request: Request, cs: seq<CandidateFile>)
    ensures FirstProblem(env, request, cs).None? <==> Known(env, request, cs)
    ensures FirstProblem(env, request, cs).Some? ==>
              FirstProblem(env, request, cs).value in {CandidateIndexMismatch, UnknownCandidateFile, InvalidCandidate}
  {
    hide Problem;
    if cs != [] {
      ProblemKinds(env, request, cs[0]);
      FirstProblemIff(env, request, cs[1..]);
      assert forall i :: 0 < i < |cs| ==> cs[i] == cs[1..][i - 1];
    }
  }

  lemma ProblemKinds(env: Env, request: Request, c: CandidateFile)
    ensures Problem(env, request, c).Some? ==>
              Problem(env, request, c).value in {CandidateIndexMismatch, UnknownCandidateFile, InvalidCandidate}
    ensures Problem(env, request, c).None? ==> c.file in request.files
  {
    hide CandidateIdentity;
  }

  ghost predicate Known(env: Env, request: Request, cs: seq<CandidateFile>) {
    forall i :: 0 <= i < |cs| ==> Problem(env, request, cs[i]).None?
  }

  lemma KnownInFiles(env: Env, request: Request, cs: seq<CandidateFile>)
    requires Known(env, request, cs)
    ensures forall i :: 0 <= i < |cs| ==> cs[i].file in request.files
  {
    hide Problem;
    forall i | 0 <= i < |cs| ensures cs[i].file in request.files { ProblemKinds(env, request, cs[i]); }
  }

  /** The group holds the lines of the text that the named file currently has, which is the text that was indexed. */
  ghost predicate ReadsFile(env: Env, request: Request, g: Group) {
    && g.candidate.file in request.files
    && exists text ::
         && env.disk(g.candidate.file) == Text(text) && g.lines == SplitLines(text)
         && |Encode(text)| == request.files[g.candidate.file].byteSize
         && env.hash(Encode(text)) == request.files[g.candidate.file].sha256
  }

  lemma GroupLines(env: Env, request: Request, c: CandidateFile)
    requires c.file in request.files
    ensures var r := GroupOf(env, request, c);
            r.Ok? && r.value.Some? ==>
              var g := r.value.value;
              && g.candidate == c && g.lines != [] && env.disk(c.file).Text?
              && g.lines == SplitLines(env.disk(c.file).text)
              && |Encode(env.disk(c.file).text)| == request.files[c.file].byteSize
              && env.hash(Encode(env.disk(c.file).text)) == request.files[c.file].sha256
              && g.spans == FileSpans(FoundLines(env, g.lines, c.symbols), |g.lines|)
  {
    hide SplitLines, Encode, FileSpans, FoundLines;
  }

  lemma GroupSpans(env: Env, request: Request, c: CandidateFile)
    requires c.file in request.files
    ensures var r := GroupOf(env, request, c);
            r.Ok? && r.value.Some? ==>
              var g := r.value.value;
              SpansInFile(g) && Disjoint(g.spans, |g.lines|) && TargetsInside(g.spans)
  {
    hide GroupOf, SplitLines, Encode, FileSpans, FoundLines, TargetsInside, NoTargetLost, SameLines;
    GroupLines(env, request, c);
    var r := GroupOf(env, request, c);
    if r.Ok? && r.value.Some? {
      var g := r.value.value;
      FileSpansGood(FoundLines(env, g.lines, c.symbols), |g.lines|);
    }
  }

  lemma GroupOfGood(env: Env, request: Request, c: CandidateFile)
    requires Accepted(request) && c.file in request.files && |c.symbols| <= MAX_SYMBOLS
    ensures var r := GroupOf(env, request, c);
            r.Ok? && r.value.Some? ==>
              r.value.value.candidate == c && PackableGroup(r.value.value) && SpansInFile(r.value.value) &&
              ReadsFile(env, request, r.value.value)
  {
    hide GroupOf, SplitLines, Encode, Join, FileSpans, FoundLines, SpansInFile, Disjoint, TargetsInside;
    GroupLines(env, request, c);
    GroupSpans(env, request, c);
    var r := GroupOf(env, request, c);
    if r.Ok? && r.value.Some? {
      var g := r.value.value;
      var text := env.disk(c.file).text;
      SplitIsCanonical(text);
      assert forall i :: 0 <= i < |g.lines| ==> IsLine(g.lines[i]);
      JoinLength(g.lines);
      EncodeLength(text);
    }
  }

  /** The group is the one read, located and merged for one of the candidates. */
  ghost predicate GroupGood(env: Env, request: Request, cs: seq<CandidateFile>, g: Group) {
    && g.candidate in cs && g.candidate.file in request.files
    && GroupOf(env, request, g.candidate) == Ok(Some(g))
    && PackableGroup(g) && SpansInFile(g) && ReadsFile(env, request, g)
  }

  ghost predicate GoodGroups(env: Env, request: Request, cs: seq<CandidateFile>, groups: seq<Group>) {
    forall i :: 0 <= i < |groups| ==> GroupGood(env, request, cs, groups[i])
  }

  ghost predicate DistinctFiles(cs: seq<CandidateFile>) {
    forall i, j :: 0 <= i < j < |cs| ==> cs[i].file != cs[j].file
  }

  ghost predicate DistinctGroups(groups: seq<Group>) {
    forall i, j :: 0 <= i < j < |groups| ==> groups[i].candidate.file != groups[j].candidate.file
  }

  lemma {:induction false} GroupsGood(env: Env, request: Request, cs: seq<CandidateFile>)
    requires Accepted(request) && DistinctFiles(cs)
    requires forall i :: 0 <= i < |cs| ==> cs[i].file in request.files && |cs[i].symbols| <= MAX_SYMBOLS
    ensures var r := Groups(env, request, cs);
            r.Ok? ==> GoodGroups(env, request, cs, r.value) && DistinctGroups(r.value)
  {
    hide PackableGroup, ReadsFile, SpansInFile, GroupOf;
    if cs != [] {
      var n := |cs| - 1;
      GroupsGood(env, request, cs[..n]);
      GroupOfGood(env, request, cs[n]);
      var front := Groups(env, request, cs[..n]);
      if front.Ok? {
        forall i | 0 <= i < |front.value|
          ensures GroupGood(env, request, cs, front.value[i]) && front.value[i].candidate.file != cs[n].file
        {
          assert GroupGood(env, request, cs[..n], front.value[i]);
          var k :| 0 <= k < n && cs[..n][k] == front.value[i].candidate;
          assert cs[k] == front.value[i].candidate && cs[k].file != cs[n].file;
        }
      }
    }
  }

  /** Equal files would have equal candidate identities, which the ordering contract rejects. */
  lemma KnownFilesDistinct(env: Env, request: Request)
    requires Accepted(request) && Known(env, request, request.candidates)
    ensures DistinctFiles(request.candidates)
  {
  }

  /** Candidates generated for the request's index pass the rank contract and every check of the request. */
  lemma GeneratedAreKnown(env: Env, request: Request, documents: seq<Document>, limit: nat)
    requires DistinctPaths(documents) && forall d :: d in documents ==> d.path in request.files
    requires request.candidates == TopCandidates(env.hash, request.repository, request.revision, documents, limit)
    ensures GenuineRanks(request.candidates) && Known(env, request, request.candidates)
    ensures DistinctIds(request.candidates) <==>
            !CandidatesCollide(env.hash, request.repository, request.revision, request.candidates)
  {
    hide CandidateIdentity, TopCandidates, GenuineRanks, DistinctIds, CandidatesCollide, RankedFiles;
    TopCandidatesGenuine(env.hash, request.repository, request.revision, documents, limit);
    TopCandidateAt(env.hash, request.repository, request.revision, documents, limit);
    RepeatedIdsCollide(env.hash, request.repository, request.revision, documents, limit);
    forall i | 0 <= i < |request.candidates| ensures Problem(env, request, request.candidates[i]).None? {
      TopCandidatesAreScored(env.hash, request.repository, request.revision, documents, limit, i);
    }
  }

  // ----- the assembly -----

  lemma SpansAppended(groups: seq<Group>, g: Option<Group>)
    requires forall i :: 0 <= i < |groups| ==> SpansInFile(groups[i])
    requires g.Some? ==> SpansInFile(g.value)
    ensures var all := groups + if g.Some? then [g.value] else [];
            forall i :: 0 <= i < |all| ==> SpansInFile(all[i])
  {
    hide SpansInFile;
  }

  lemma {:induction false} GroupsSpans(env: Env, request: Request, cs: seq<CandidateFile>)
    requires forall i :: 0 <= i < |cs| ==> cs[i].file in request.files
    ensures var r := Groups(env, request, cs); r.Ok? ==> forall i :: 0 <= i < |r.value| ==> SpansInFile(r.value[i])
  {
    hide GroupOf, SpansInFile;
    if cs != [] {
      var n := |cs| - 1;
      GroupsSpans(env, request, cs[..n]);
      GroupSpans(env, request, cs[n]);
      var front, g := Groups(env, request, cs[..n]), GroupOf(env, request, cs[n]);
      if front.Ok? && g.Ok? { SpansAppended(front.value, g.value); }
    }
  }

  /** The items packed for a request that passes its checks and whose files are unchanged. */
  function Packed(env: Env, request: Request): Result<seq<ContextItem>, ContextError> {
    if request.workspaceRepository != request.repository || request.workspaceRevision != request.revision
    then Err(WorkspaceIndexMismatch)
    else if FirstProblem(env, request, request.candidates).Some?
    then Err(FirstProblem(env, request, request.candidates).value)
    else
      FirstProblemIff(env, request, request.candidates);
      KnownInFiles(env, request, request.candidates);
      var groups := Groups(env, request, request.candidates);
      if groups.Err? then Err(groups.error)
      else
        GroupsSpans(env, request, request.candidates);
        PackGroups(env, request, groups.value, request.budget, 0)
  }

  function Assembled(env: Env, request: Request): Result<Bundle, ContextError> {
    var items := Packed(env, request);
    if items.Err? then Err(items.error) else NewBundle(request, items.value, TokenSum(items.value))
  }

  /** Two of these very items are digested from different bytes into one digest. */
  ghost predicate DigestsCollide(h: Hash, items: seq<ContextItem>) {
    exists i, j :: 0 <= i < j < |items| && Collide(h, ItemKeyOf(items[i]), ItemKeyOf(items[j]))
  }

  lemma SameIdentity(h: Hash, k: ItemKey, m: ItemKey)
    requires BoundedKey(k) && BoundedKey(m) && k != m
    ensures ItemIdentity(h, k) == ItemIdentity(h, m) <==> Collide(h, k, m)
  {
    hide ItemBytes;
    if ItemIdentity(h, k) == ItemIdentity(h, m) { SharedIdentityIsCollision(h, k, m); }
  }

  ghost predicate Identified(h: Hash, item: ContextItem) {
    BoundedKey(ItemKeyOf(item)) && item.id == ItemIdentity(h, ItemKeyOf(item))
  }

  lemma PackedIdentified(env: Env, request: Request, groups: seq<Group>, items: seq<ContextItem>)
    requires GoodPacking(env, request, groups, items)
    ensures forall i :: 0 <= i < |items| ==> Identified(env.hash, items[i]) && items[i].start <= items[i].end
  {
    hide ItemIdentity;
    forall i | 0 <= i < |items| ensures Identified(env.hash, items[i]) && items[i].start <= items[i].end {
      var k :| 0 <= k < |groups| && ExactItem(env, request, groups[k], items[i]);
    }
  }

  /** Packed items are distinct sources, so their identities repeat exactly when the digests of two of them collide. */
  lemma RepeatedIdIsCollision(env: Env, request: Request, groups: seq<Group>, items: seq<ContextItem>)
    requires GoodPacking(env, request, groups, items)
    ensures UniqueItems(items) <==> !DigestsCollide(env.hash, items)
  {
    hide ExactItem, Collide, ItemIdentity, BoundedKey;
    PackedIdentified(env, request, groups, items);
    forall i, j | 0 <= i < j < |items|
      ensures items[i].id == items[j].id <==> Collide(env.hash, ItemKeyOf(items[i]), ItemKeyOf(items[j]))
    {
      assert Identified(env.hash, items[i]) && Identified(env.hash, items[j]);
      SameIdentity(env.hash, ItemKeyOf(items[i]), ItemKeyOf(items[j]));
    }
  }

  /**
   The item shows lines of the current text of its candidate's file, from within one span selected
   and merged for it.
   */
  ghost predicate ShowsItsFile(env: Env, request: Request, item: ContextItem) {
    exists c :: c in request.candidates && ShowsCandidate(env, request, c, item)
  }

  ghost predicate ShowsCandidate(env: Env, request: Request, c: CandidateFile, item: ContextItem) {
    && c.file in request.files
    && var g := GroupOf(env, request, c);
       && g.Ok? && g.value.Some? && ReadsFile(env, request, g.value.value)
       && ExactItem(env, request, g.value.value, item)
  }

  ghost predicate GoodBundle(env: Env, request: Request, bundle: Bundle) {
    && bundle.repository == request.repository && bundle.revision == request.revision
    && (forall i :: 0 <= i < |bundle.items| ==> ShowsItsFile(env, request, bundle.items[i]))
    && NoLineTwice(bundle.items) && UniqueItems(bundle.items)
    && |bundle.items| <= MAX_CONTEXT_ITEMS
    && bundle.consumed == TokenSum(bundle.items) <= bundle.maxTokens == request.budget
  }

  lemma ItemsOfRequest(env: Env, request: Request, groups: seq<Group>, items: seq<ContextItem>)
    requires GoodGroups(env, request, request.candidates, groups) && GoodPacking(env, request, groups, items)
    ensures forall i :: 0 <= i < |items| ==> ShowsItsFile(env, request, items[i])
    ensures forall i :: 0 <= i < |items| ==>
              items[i].repository == request.repository && items[i].revision == request.revision
  {
    hide GroupOf, ReadsFile, PackableGroup, SpansInFile, ItemIdentity;
    forall i | 0 <= i < |items|
      ensures ShowsItsFile(env, request, items[i]) && items[i].repository == request.repository
      ensures items[i].revision == request.revision
    {
      var k :| 0 <= k < |groups| && ExactItem(env, request, groups[k], items[i]);
      assert GroupGood(env, request, request.candidates, groups[k]);
      assert ShowsCandidate(env, request, groups[k].candidate, items[i]);
    }
  }

  /** These items make a good bundle, or two of them collide in the digest and the bundle refuses them as duplicates. */
  ghost predicate BundleOf(env: Env, request: Request, items: seq<ContextItem>) {
    var bundle := NewBundle(request, items, TokenSum(items));
    && (bundle.Ok? ==> GoodBundle(env, request, bundle.value) && bundle.value.items == items)
    && (bundle.Err? ==> bundle.error == DuplicateItem)
    && (bundle.Ok? <==> !DigestsCollide(env.hash, items))
  }

  /** Packed items always pass every constructor check but the distinctness of their identities. */
  lemma PackedBundle(env: Env, request: Request, groups: seq<Group>)
    requires Accepted(request)
    requires GoodGroups(env, request, request.candidates, groups) && DistinctGroups(groups)
    ensures PackableGroups(groups)
    ensures var items := PackGroups(env, request, groups, request.budget, 0);
            items.Ok? && BundleOf(env, request, items.value)
  {
    hide PackableGroup, ReadsFile, SpansInFile, ExactItem, ShowsItsFile, PackGroups, NoLineTwice, DigestsCollide,
         GroupOf;
    GroupsArePackable(env, request, groups);
    PackGroupsGood(env, request, groups, request.budget, 0);
    var items := PackGroups(env, request, groups, request.budget, 0).value;
    ItemsOfRequest(env, request, groups, items);
    RepeatedIdIsCollision(env, request, groups, items);
  }

  lemma GroupsArePackable(env: Env, request: Request, groups: seq<Group>)
    requires GoodGroups(env, request, request.candidates, groups) && DistinctGroups(groups)
    ensures PackableGroups(groups)
  {
    hide PackableGroup, ReadsFile, SpansInFile, GroupOf;
    forall i | 0 <= i < |groups| ensures PackableGroup(groups[i]) && SpansInFile(groups[i]) {
      assert GroupGood(env, request, request.candidates, groups[i]);
    }
  }

  predicate BoundWorkspace(request: Request) {
    request.workspaceRepository == request.repository && request.workspaceRevision == request.revision
  }

  /** The workspace is bound, every candidate is known and every candidate's file is the one that was indexed. */
  ghost predicate Unchanged(env: Env, request: Request) {
    && BoundWorkspace(request)
    && Known(env, request, request.candidates)
    && forall i :: 0 <= i < |request.candidates| ==>
         AsIndexed(env, request.candidates[i].file, request.files[request.candidates[i].file])
  }

  /** The groups of a request whose candidates are known. */
  lemma KnownGroups(env: Env, request: Request)
    requires Accepted(request) && Known(env, request, request.candidates)
    ensures forall i :: 0 <= i < |request.candidates| ==> request.candidates[i].file in request.files
    ensures var groups := Groups(env, request, request.candidates);
            && (groups.Ok? ==>
                  GoodGroups(env, request, request.candidates, groups.value) && DistinctGroups(groups.value))
            && (groups.Err? ==> groups.error in {SourceChanged, FilesystemFailure})
            && (groups.Ok? && BoundWorkspace(request) <==> Unchanged(env, request))
  {
    hide Accepted, Known, GoodGroups, DistinctGroups, GroupOf, AsIndexed, DistinctFiles;
    KnownInFiles(env, request, request.candidates);
    KnownFilesDistinct(env, request);
    AcceptedSymbols(request);
    GroupsGood(env, request, request.candidates);
    GroupErrors(env, request, request.candidates);
  }

  /** Packing fails only where the request or a file does, and with that error. */
  lemma PackedGood(env: Env, request: Request)
    requires Accepted(request)
    ensures var items := Packed(env, request);
            && (items.Ok? <==> Unchanged(env, request))
            && (items.Err? ==> items.error !in {InvalidItem, InvalidBudget, InvalidBundle, DuplicateItem})
            && (items.Ok? ==> BundleOf(env, request, items.value))
  {
    hide Accepted, Known, GoodGroups, DistinctGroups, Groups, PackGroups, BundleOf;
    FirstProblemIff(env, request, request.candidates);
    if Known(env, request, request.candidates) {
      KnownGroups(env, request);
      var groups := Groups(env, request, request.candidates);
      if groups.Ok? { PackedBundle(env, request, groups.value); }
    }
  }

  lemma AcceptedSymbols(request: Request)
    requires Accepted(request)
    ensures forall i :: 0 <= i < |request.candidates| ==> |request.candidates[i].symbols| <= MAX_SYMBOLS
  {
  }

  /**
   For every accepted request: a good bundle of the packed items, a request or file error, or two
   packed items that collide.
   */
  lemma AssembledGood(env: Env, request: Request)
    requires Accepted(request)
    ensures var r := Assembled(env, request);
            && (r.Ok? ==> GoodBundle(env, request, r.value) && Packed(env, request) == Ok(r.value.items))
            && (r.Err? ==> r.error !in {InvalidItem, InvalidBudget, InvalidBundle})
            && (r == Err(DuplicateItem) <==>
                  Packed(env, request).Ok? && DigestsCollide(env.hash, Packed(env, request).value))
  {
    hide GoodBundle, Packed, NewBundle, DigestsCollide, Accepted, Unchanged;
    PackedGood(env, request);
  }

  /**
   Assembly succeeds exactly when the workspace is bound, the candidates are known, their files
   are unchanged, and no two of the items packed for this request collide in the digest.
   */
  lemma AssemblySucceeds(env: Env, request: Request)
    requires Accepted(request)
    ensures Assembled(env, request).Ok? <==>
              && Unchanged(env, request)
              && Packed(env, request).Ok? && !DigestsCollide(env.hash, Packed(env, request).value)
  {
    hide GoodBundle, Packed, NewBundle, DigestsCollide, Accepted, Unchanged;
    PackedGood(env, request);
  }

  /** The items of every bundle are packed greedily from the windows selected and merged for each unchanged file. */
  lemma AssembledGreedy(env: Env, request: Request)
    requires Accepted(request) && Assembled(env, request).Ok?
    ensures forall i :: 0 <= i < |request.candidates| ==> request.candidates[i].file in request.files
    ensures var groups := Groups(env, request, request.candidates);
            && groups.Ok? && (forall i :: 0 <= i < |groups.value| ==> SpansInFile(groups.value[i]))
            && GreedilyPacked(groups.value, request.budget, 0, Assembled(env, request).value.items)
  {
    hide Accepted, Known, GoodGroups, DistinctGroups, Groups, PackGroups, BundleOf, NewBundle;
    AssembledGood(env, request);
    FirstProblemIff(env, request, request.candidates);
    KnownGroups(env, request);
    GroupsSpans(env, request, request.candidates);
    var groups := Groups(env, request, request.candidates).value;
    GroupsArePackable(env, request, groups);
    PackGroupsGreedy(env, request, groups, request.budget, 0);
  }

  lemma {:induction false} GroupErrors(env: Env, request: Request, cs: seq<CandidateFile>)
    requires forall i :: 0 <= i < |cs| ==> cs[i].file in request.files
    ensures Groups(env, request, cs).Err? ==> Groups(env, request, cs).error in {SourceChanged, FilesystemFailure}
    ensures Groups(env, request, cs).Err? <==>
              exists i :: 0 <= i < |cs| && !AsIndexed(env, cs[i].file, request.files[cs[i].file])
  {
    hide ReadLines, FileSpans, AsIndexed;
    if cs != [] {
      var n := |cs| - 1;
      ReadSucceedsIff(env, cs[n].file, request.files[cs[n].file]);
      GroupErrors(env, request, cs[..n]);
      assert forall i :: 0 <= i < n ==> cs[..n][i] == cs[i];
    }
  }

  function SpanBytes(g: Group, k: nat): nat
    requires SpansInFile(g) && k <= |g.spans|
    decreases |g.spans| - k
  {
    if k == |g.spans| then 0
    else |Encode(ContentOf(g.lines, g.spans[k].start, g.spans[k].end))| + SpanBytes(g, k + 1)
  }

  /** Every span from the k-th on as one item, whole. */
  function WholeItems(env: Env, request: Request, g: Group, k: nat): Result<seq<ContextItem>, ContextError>
    requires SpansInFile(g) && k <= |g.spans|
    decreases |g.spans| - k
  {
    if k == |g.spans| then Ok([])
    else
      var span := g.spans[k];
      var item := NewItem(env, request, g.candidate, span.start, span.end, ContentOf(g.lines, span.start, span.end));
      if item.Err? then Err(item.error) else Prepend([item.value], WholeItems(env, request, g, k + 1))
  }

  /** Each span from the k-th on fits into one item. */
  ghost predicate SpansFitItems(g: Group, k: nat)
    requires SpansInFile(g)
  {
    forall i :: k <= i < |g.spans| ==>
      |Encode(ContentOf(g.lines, g.spans[i].start, g.spans[i].end))| <= MAX_CONTEXT_BYTES
  }

  /** The items are the spans from the k-th on, in order and whole. */
  ghost predicate WholeFrom(g: Group, k: nat, items: seq<ContextItem>)
    requires k <= |g.spans|
  {
    && |items| == |g.spans| - k
    && (forall i :: 0 <= i < |items| ==> items[i].file == g.candidate.file)
    && forall i :: 0 <= i < |items| ==>
         items[i].start == g.spans[k + i].start && items[i].end == g.spans[k + i].end
  }

  /** With budget for all of them, every span is emitted whole and none is skipped. */
  lemma {:induction false} WholeSpansWhenBudgetSuffices(env: Env, request: Request, g: Group, k: nat, remaining: nat,
        have: nat)
    requires PackableGroup(g) && SpansInFile(g) && SpansFitItems(g, k) && k <= |g.spans|
    requires SpanBytes(g, k) <= remaining && have + (|g.spans| - k) <= MAX_CONTEXT_ITEMS
    ensures var r := PackSpans(env, request, g, k, remaining, have);
            && r == WholeItems(env, request, g, k)
            && r.Ok? && WholeFrom(g, k, r.value) && TokenSum(r.value) == SpanBytes(g, k)
    decreases |g.spans| - k
  {
    hide ExactItem, GoodGroup, NewItem, Encode, Join, LinePrefix, ContentOf;
    if k < |g.spans| {
      var span := g.spans[k];
      var capacity := Min(remaining, MAX_CONTEXT_BYTES);
      SliceBytesOfSpan(g, k);
      FittedItemOk(env, request, g, k, capacity);
      var item := NewItem(env, request, g.candidate, span.start, span.end,
                          ContentOf(g.lines, span.start, span.end)).value;
      ExactItemTokens(env, request, g, item);
      WholeSpansWhenBudgetSuffices(env, request, g, k + 1, remaining - item.tokens, have + 1);
      var rest := PackSpans(env, request, g, k + 1, remaining - item.tokens, have + 1).value;
      WholePrepended(g, k, item, rest);
    }
  }

  lemma WholePrepended(g: Group, k: nat, item: ContextItem, rest: seq<ContextItem>)
    requires k < |g.spans| && item.file == g.candidate.file
    requires item.start == g.spans[k].start && item.end == g.spans[k].end && WholeFrom(g, k + 1, rest)
    ensures WholeFrom(g, k, [item] + rest) && TokenSum([item] + rest) == item.tokens + TokenSum(rest)
  {
    var items := [item] + rest;
    assert items[1..] == rest;
    forall i | 0 <= i < |items|
      ensures items[i].file == g.candidate.file
      ensures items[i].start == g.spans[k + i].start && items[i].end == g.spans[k + i].end
    {
      if i > 0 { assert items[i] == rest[i - 1]; }
    }
  }

  lemma SliceBytesOfSpan(g: Group, k: nat)
    requires PackableGroup(g) && SpansInFile(g) && k < |g.spans|
    ensures Bytes(LinePrefix(g.lines), g.spans[k].start, g.spans[k].end) ==
            |Encode(ContentOf(g.lines, g.spans[k].start, g.spans[k].end))|
  {
    SliceContent(g.lines, g.spans[k].start, g.spans[k].end);
  }

  lemma ExactItemTokens(env: Env, request: Request, g: Group, item: ContextItem)
    requires ExactItem(env, request, g, item)
    ensures item.tokens == |Encode(ContentOf(g.lines, item.start, item.end))| && item.file == g.candidate.file
  {
  }

  // ----- the methods -----

  method CheckCandidates(env: Env, request: Request) returns (r: Option<ContextError>)
    ensures r == FirstProblem(env, request, request.candidates)
  {
    var cs := request.candidates;
    for i := 0 to |cs|
      invariant FirstProblem(env, request, cs) == FirstProblem(env, request, cs[i..])
    {
      assert cs[i..][1..] == cs[i + 1..];
      var c := cs[i];
      if c.repository != request.repository || c.revision != request.revision { return Some(CandidateIndexMismatch); }
      if c.file !in request.files { return Some(UnknownCandidateFile); }
      if c.id != CandidateIdentity(env.hash, request.repository, request.revision, c.file) {
        return Some(InvalidCandidate);
      }
    }
    return None;
  }

  method SpansOfFile(env: Env, lines: seq<string>, symbols: seq<Symbol>) returns (spans: seq<Proposal>)
    requires lines != []
    ensures spans == FileSpans(FoundLines(env, lines, symbols), |lines|)
  {
    hide Locate, LocatedLines;
    var found: seq<Option<int>> := [];
    NothingLocated();
    for i := 0 to |symbols|
      invariant |found| == i
      invariant LocatedLines(found) == FoundLines(env, lines, symbols[..i])
    {
      assert symbols[..i + 1][..i] == symbols[..i];
      var line := LocateSymbol(env, lines, symbols[i]);
      LocatedGrows(found, line);
      found := found + [line];
    }
    assert symbols[..|symbols|] == symbols;
    var windows := SelectWindows(|lines|, found);
    spans := MergeProposals(windows);
  }

  method BuildGroups(env: Env, request: Request) returns (r: Result<seq<Group>, ContextError>)
    requires forall i :: 0 <= i < |request.candidates| ==> request.candidates[i].file in request.files
    ensures r == Groups(env, request, request.candidates)
  {
    hide FileSpans, FoundLines, ReadLines;
    var cs := request.candidates;
    var groups: seq<Group> := [];
    assert cs[..0] == [];
    for i := 0 to |cs|
      invariant Groups(env, request, cs[..i]) == Ok(groups)
    {
      GroupsExtend(env, request, cs, i, groups);
      var c := cs[i];
      var read := ReadVerifiedLines(env, c.file, request.files[c.file]);
      if read.Err? {
        GroupsStop(env, request, cs, i + 1);
        return Err(read.error);
      }
      if read.value.Some? && read.value.value != [] {
        var lines := read.value.value;
        var spans := SpansOfFile(env, lines, c.symbols);
        groups := groups + [Group(c, lines, spans)];
      }
    }
    assert cs[..|cs|] == cs;
    return Ok(groups);
  }

  lemma GroupsExtend(env: Env, request: Request, cs: seq<CandidateFile>, i: nat, groups: seq<Group>)
    requires i < |cs| && forall k :: 0 <= k < |cs| ==> cs[k].file in request.files
    requires Groups(env, request, cs[..i]) == Ok(groups)
    ensures var g := GroupOf(env, request, cs[i]);
            Groups(env, request, cs[..i + 1]) ==
              if g.Err? then Err(g.error) else if g.value.Some? then Ok(groups + [g.value.value]) else Ok(groups)
  {
    hide GroupOf;
    assert cs[..i + 1][..i] == cs[..i] && cs[..i + 1][i] == cs[i];
    assert groups + [] == groups;
  }

  lemma {:induction false} GroupsStop(env: Env, request: Request, cs: seq<CandidateFile>, n: nat)
    requires n <= |cs| && forall i :: 0 <= i < |cs| ==> cs[i].file in request.files
    requires Groups(env, request, cs[..n]).Err?
    ensures Groups(env, request, cs) == Groups(env, request, cs[..n])
    decreases |cs|
  {
    if n == |cs| {
      assert cs[..n] == cs;
    } else {
      assert cs[..|cs| - 1][..n] == cs[..n];
      GroupsStop(env, request, cs[..|cs| - 1], n);
    }
  }

  method PackGroup(env: Env, request: Request, g: Group, budget: int, have: nat)
    returns (r: Result<seq<ContextItem>, ContextError>)
    requires SpansInFile(g)
    ensures r == PackSpans(env, request, g, 0, budget, have)
  {
    hide Fitted, NewItem, ContentOf, LinePrefix;
    var prefix := LineBytePrefix(g.lines);
    var items: seq<ContextItem> := [];
    var remaining := budget;
    PrependNothing(PackSpans(env, request, g, 0, budget, have));
    for k := 0 to |g.spans|
      invariant Prepend(items, PackSpans(env, request, g, k, remaining, have + |items|)) ==
                PackSpans(env, request, g, 0, budget, have)
    {
      if have + |items| >= MAX_CONTEXT_ITEMS {
        assert items + [] == items;
        return Ok(items);
      }
      var fitted := FitSpan(g.spans[k], prefix, Min(remaining, MAX_CONTEXT_BYTES));
      if fitted.Some? {
        FittedInside(g.spans[k], prefix, Min(remaining, MAX_CONTEXT_BYTES));
        var (lo, hi) := fitted.value;
        var item := NewItem(env, request, g.candidate, lo, hi, ContentOf(g.lines, lo, hi));
        if item.Err? { return Err(item.error); }
        PrependTwice(items, [item.value], PackSpans(env, request, g, k + 1, remaining - item.value.tokens,
                                                    have + |items| + 1));
        items := items + [item.value];
        remaining := remaining - item.value.tokens;
      }
    }
    assert items + [] == items;
    return Ok(items);
  }

  lemma PrependNothing(r: Result<seq<ContextItem>, ContextError>)
    ensures Prepend([], r) == r
  {
    if r.Ok? { assert [] + r.value == r.value; }
  }

  lemma PrependTwice(a: seq<ContextItem>, b: seq<ContextItem>, r: Result<seq<ContextItem>, ContextError>)
    ensures Prepend(a, Prepend(b, r)) == Prepend(a + b, r)
  {
    if r.Ok? { assert a + (b + r.value) == a + b + r.value; }
  }

  method PackAll(env: Env, request: Request, groups: seq<Group>) returns (r: Result<seq<ContextItem>, ContextError>)
    requires forall i :: 0 <= i < |groups| ==> SpansInFile(groups[i])
    ensures r == PackGroups(env, request, groups, request.budget, 0)
  {
    hide PackSpans;
    var items: seq<ContextItem> := [];
    var remaining := request.budget as int;
    assert groups[0..] == groups;
    PrependNothing(PackGroups(env, request, groups, request.budget, 0));
    for n := 0 to |groups|
      invariant Prepend(items, PackGroups(env, request, groups[n..], remaining, |items|)) ==
                PackGroups(env, request, groups, request.budget, 0)
    {
      assert groups[n..][1..] == groups[n + 1..];
      if |items| >= MAX_CONTEXT_ITEMS {
        assert items + [] == items;
        return Ok(items);
      }
      var packed := PackGroup(env, request, groups[n], remaining, |items|);
      if packed.Err? { return packed; }
      PrependTwice(items, packed.value,
                   PackGroups(env, request, groups[n + 1..], remaining - TokenSum(packed.value),
                              |items| + |packed.value|));
      items := items + packed.value;
      remaining := remaining - TokenSum(packed.value);
    }
    assert items + [] == items;
    return Ok(items);
  }

  method AssembleContext(env: Env, request: Request) returns (r: Result<Bundle, ContextError>)
    ensures r == Assembled(env, request)
  {
    hide PackGroups, NewBundle, GroupOf;
    if request.workspaceRepository != request.repository || request.workspaceRevision != request.revision {
      return Err(WorkspaceIndexMismatch);
    }
    var problem := CheckCandidates(env, request);
    if problem.Some? { return Err(problem.value); }
    FirstProblemIff(env, request, request.candidates);
    KnownInFiles(env, request, request.candidates);
    var groups := BuildGroups(env, request);
    if groups.Err? { return Err(groups.error); }
    GroupsSpans(env, request, request.candidates);
    var items := PackAll(env, request, groups.value);
    assert items == Packed(env, request);
    if items.Err? { return Err(items.error); }
    return NewBundle(request, items.value, TokenSum(items.value));
  }
}
