/**
 Packing ranked candidates into a context bundle under a token budget
 (context.py: assemble_context), and the constructor checks of
 localisation.py that every emitted item and the bundle must pass.

 The file system, the digest and symbol search are parameters: a theorem about them
 holds for every file system, digest and search.
 */
module ContextAssembly {
  import opened Prelude
  import opened SourceLines
  import opened Utf8
  import opened Identities
  import opened Ranking
  import opened Windows
  import opened SpanFitting

  const MAX_CONTEXT_BYTES: nat := 1_048_576
  const MAX_TOKEN_BUDGET: nat := 2_000_000
  const MAX_CONTEXT_ITEMS: nat := 10_000
  const MAX_LINE_NUMBER: nat := 2_147_483_647
  const MAX_INDEX_FILE_BYTES: nat := 8_388_608
  const MAX_SYMBOLS: nat := 16

  datatype ContextError =
    | WorkspaceIndexMismatch
    | CandidateIndexMismatch
    | UnknownCandidateFile
    | InvalidCandidate
    | SourceChanged
    | FilesystemFailure
    | InvalidItem
    | InvalidBudget
    | InvalidBundle
    | DuplicateItem

  datatype Pattern = MethodCall(name: string) | TypeDeclaration(name: string) | Word(name: string)

  datatype FileRead = Unreadable | Replaced | Text(text: string) | Undecodable(data: seq<byte>)

  datatype Env = Env(
    search: (Pattern, string) -> bool,
    hash: Hash,
    disk: Identity -> FileRead)

  datatype IndexedFile = IndexedFile(sha256: Hex64, binary: bool, byteSize: nat)

  datatype Request = Request(
    workspaceRepository: Identity, workspaceRevision: Identity,
    repository: Identity, revision: Identity,
    files: map<Identity, IndexedFile>,
    candidates: seq<CandidateFile>, budget: nat)

  datatype ContextItem = ContextItem(
    id: Identity, candidate: Identity, repository: Identity, revision: Identity, file: Identity,
    start: nat, end: nat, contentSha: Hex64, content: string, tokens: nat)

  datatype Bundle = Bundle(repository: Identity, revision: Identity, items: seq<ContextItem>, maxTokens: nat,
                           consumed: nat)

  /** What the request and index constructors have already established. */
  ghost predicate Accepted(request: Request) {
    && GenuineRanks(request.candidates) && DistinctIds(request.candidates)
    && (forall i :: 0 <= i < |request.candidates| ==> |request.candidates[i].symbols| <= MAX_SYMBOLS)
    && 1 <= request.budget <= MAX_TOKEN_BUDGET
    && (forall f :: f in request.files ==> request.files[f].byteSize <= MAX_INDEX_FILE_BYTES)
  }

  // ----- reading a verified file -----

  function ReadLines(env: Env, file: Identity, indexed: IndexedFile): Result<Option<seq<string>>, ContextError> {
    match env.disk(file)
    case Unreadable => Err(FilesystemFailure)
    case Replaced => Err(SourceChanged)
    case Text(text) =>
      if |Encode(text)| != indexed.byteSize || env.hash(Encode(text)) != indexed.sha256 then Err(SourceChanged)
      else if indexed.binary || '\0' in text then Ok(None)
      else Ok(Some(SplitLines(text)))
    case Undecodable(data) =>
      if |data| != indexed.byteSize || env.hash(data) != indexed.sha256 then Err(SourceChanged)
      else if indexed.binary then Ok(None)
      else Err(SourceChanged)
  }

  /** The file is the one that was indexed: same size and digest, and still text if it was indexed as text. */
  predicate AsIndexed(env: Env, file: Identity, indexed: IndexedFile) {
    match env.disk(file)
    case Text(text) => |Encode(text)| == indexed.byteSize && env.hash(Encode(text)) == indexed.sha256
    case Undecodable(data) => |data| == indexed.byteSize && env.hash(data) == indexed.sha256 && indexed.binary
    case _ => false
  }

  /** A file is read exactly as it was indexed, and gives lines exactly when it is text without NUL characters. */
  lemma ReadSucceedsIff(env: Env, file: Identity, indexed: IndexedFile)
    ensures var r := ReadLines(env, file, indexed);
            && (r.Ok? <==> AsIndexed(env, file, indexed))
            && (r.Err? ==> r.error == if env.disk(file).Unreadable? then FilesystemFailure else SourceChanged)
            && (r.Ok? ==> (r.value.Some? <==>
                  !indexed.binary && exists text :: env.disk(file) == Text(text) && '\0' !in text))
            && (r.Ok? && r.value.Some? ==> r.value.value == SplitLines(env.disk(file).text))
  {
    hide SplitLines, Encode;
  }

  method ReadVerifiedLines(env: Env, file: Identity, indexed: IndexedFile) returns (r: Result<Option<seq<string>>,
        ContextError>)
    ensures r == ReadLines(env, file, indexed)
  {
    var read := env.disk(file);
    if read.Unreadable? { return Err(FilesystemFailure); }
    if read.Replaced? { return Err(SourceChanged); }
    var data := if read.Text? then Encode(read.text) else read.data;
    if |data| != indexed.byteSize || env.hash(data) != indexed.sha256 { return Err(SourceChanged); }
    if indexed.binary { return Ok(None); }
    if read.Undecodable? { return Err(SourceChanged); }
    if '\0' in read.text { return Ok(None); }
    var lines := SplitSourceLines(read.text);
    return Ok(Some(lines));
  }

  // ----- locating symbols -----

  function Patterns(symbol: Symbol): seq<Pattern> {
    if symbol.kind == Method then [MethodCall(symbol.name)] else [TypeDeclaration(symbol.name), Word(symbol.name)]
  }

  /** Number of the first line that matches, counting from `number` for lines[0]. */
  function FirstMatch(env: Env, lines: seq<string>, number: nat, pattern: Pattern): (r: Option<int>)
    ensures r.Some? ==> number <= r.value < number + |lines|
  {
    if lines == [] then None
    else if env.search(pattern, lines[0]) then Some(number)
    else FirstMatch(env, lines[1..], number + 1, pattern)
  }

  function Locate(env: Env, lines: seq<string>, patterns: seq<Pattern>): (r: Option<int>)
    ensures r.Some? ==> 1 <= r.value <= |lines|
  {
    if patterns == [] then None
    else
      var m := FirstMatch(env, lines, 1, patterns[0]);
      if m.Some? then m else Locate(env, lines, patterns[1..])
  }

  /** The line, counted from 1, is the first that the pattern matches. */
  ghost predicate FirstLine(env: Env, lines: seq<string>, pattern: Pattern, line: int) {
    && 1 <= line <= |lines| && env.search(pattern, lines[line - 1])
    && forall k :: 0 <= k < line - 1 ==> !env.search(pattern, lines[k])
  }

  /** A method is located on its first call; a type on its first declaration, or else on its first mention. */
  ghost predicate LocatedOn(env: Env, lines: seq<string>, symbol: Symbol, line: int) {
    if symbol.kind == Method then FirstLine(env, lines, MethodCall(symbol.name), line)
    else
      || FirstLine(env, lines, TypeDeclaration(symbol.name), line)
      || (&& FirstLine(env, lines, Word(symbol.name), line)
          && forall k :: 0 <= k < |lines| ==> !env.search(TypeDeclaration(symbol.name), lines[k]))
  }

  lemma {:induction false} FirstMatchIs(env: Env, lines: seq<string>, number: nat, pattern: Pattern)
    ensures var r := FirstMatch(env, lines, number, pattern);
            && (r.None? <==> forall k :: 0 <= k < |lines| ==> !env.search(pattern, lines[k]))
            && (r.Some? ==> FirstLine(env, lines, pattern, r.value - number + 1))
  {
    if lines != [] && !env.search(pattern, lines[0]) {
      FirstMatchIs(env, lines[1..], number + 1, pattern);
      assert forall k :: 1 <= k < |lines| ==> lines[k] == lines[1..][k - 1];
    }
  }

  lemma OneFirstLine(env: Env, lines: seq<string>, pattern: Pattern, a: int, b: int)
    requires FirstLine(env, lines, pattern, a) && FirstLine(env, lines, pattern, b)
    ensures a == b
  {
  }

  lemma LocatedIff(env: Env, lines: seq<string>, symbol: Symbol, line: int)
    ensures Locate(env, lines, Patterns(symbol)) == Some(line) <==> LocatedOn(env, lines, symbol, line)
  {
    hide FirstMatch;
    var patterns := Patterns(symbol);
    LocateUnfolds(env, lines, patterns);
    FirstMatchIs(env, lines, 1, patterns[0]);
    if symbol.kind != Method { FirstMatchIs(env, lines, 1, patterns[1]); }
  }

  lemma LocateUnfolds(env: Env, lines: seq<string>, patterns: seq<Pattern>)
    requires 1 <= |patterns| <= 2
    ensures var m := FirstMatch(env, lines, 1, patterns[0]);
            Locate(env, lines, patterns) ==
            if m.Some? || |patterns| == 1 then m else FirstMatch(env, lines, 1, patterns[1])
  {
    hide FirstMatch;
    assert |patterns| == 1 ==> patterns[1..] == [];
    assert |patterns| == 2 ==> patterns[1..] == [patterns[1]] && patterns[1..][1..] == [];
  }

  /** The lines found are exactly those on which one of the symbols is located. */
  lemma {:induction false} FoundLinesAre(env: Env, lines: seq<string>, symbols: seq<Symbol>, line: int)
    ensures line in FoundLines(env, lines, symbols) <==>
              exists i :: 0 <= i < |symbols| && LocatedOn(env, lines, symbols[i], line)
  {
    hide Locate, LocatedOn;
    if symbols != [] {
      var n := |symbols| - 1;
      FoundLinesAre(env, lines, symbols[..n], line);
      LocatedIff(env, lines, symbols[n], line);
      assert forall i :: 0 <= i < n ==> symbols[..n][i] == symbols[i];
    }
  }

  method LocateSymbol(env: Env, lines: seq<string>, symbol: Symbol) returns (r: Option<int>)
    ensures r == Locate(env, lines, Patterns(symbol))
    ensures forall line :: r == Some(line) <==> LocatedOn(env, lines, symbol, line)
  {
    forall line ensures Locate(env, lines, Patterns(symbol)) == Some(line) <==> LocatedOn(env, lines, symbol, line) {
      LocatedIff(env, lines, symbol, line);
    }
    var patterns := Patterns(symbol);
    for k := 0 to |patterns|
      invariant Locate(env, lines, patterns) == Locate(env, lines, patterns[k..])
    {
      assert patterns[k..][1..] == patterns[k + 1..];
      for i := 0 to |lines|
        invariant FirstMatch(env, lines, 1, patterns[k]) == FirstMatch(env, lines[i..], i + 1, patterns[k])
      {
        assert lines[i..][1..] == lines[i + 1..];
        if env.search(patterns[k], lines[i]) { return Some(i + 1); }
      }
    }
    return None;
  }

  /** The lines on which the candidate's symbols were located. */
  function FoundLines(env: Env, lines: seq<string>, symbols: seq<Symbol>): (r: set<int>)
    ensures |r| <= |symbols|
    ensures forall line :: line in r ==> 1 <= line <= |lines|
  {
    if symbols == [] then {}
    else
      var m := Locate(env, lines, Patterns(symbols[|symbols| - 1]));
      FoundLines(env, lines, symbols[..|symbols| - 1]) + (if m.Some? then {m.value} else {})
  }

  // ----- the source groups -----

  datatype Group = Group(candidate: CandidateFile, lines: seq<string>, spans: seq<Proposal>)

  ghost predicate GoodGroup(g: Group) {
    && Disjoint(g.spans, |g.lines|) && TargetsInside(g.spans)
    && Canonical(g.lines)
  }

  /** The group of one candidate, or None when its file is not turned into context. */
  function GroupOf(env: Env, request: Request, c: CandidateFile): Result<Option<Group>, ContextError>
    requires c.file in request.files
  {
    var read := ReadLines(env, c.file, request.files[c.file]);
    if read.Err? then Err(read.error)
    else if read.value.None? || read.value.value == [] then Ok(None)
    else
      var lines := read.value.value;
      Ok(Some(Group(c, lines, FileSpans(FoundLines(env, lines, c.symbols), |lines|))))
  }

  function Groups(env: Env, request: Request, cs: seq<CandidateFile>): Result<seq<Group>, ContextError>
    requires forall i :: 0 <= i < |cs| ==> cs[i].file in request.files
  {
    if cs == [] then Ok([])
    else
      var n := |cs| - 1;
      var front := Groups(env, request, cs[..n]);
      if front.Err? then front
      else
        var g := GroupOf(env, request, cs[n]);
        if g.Err? then Err(g.error)
        else Ok(front.value + if g.value.Some? then [g.value.value] else [])
  }

  // ----- the constructors -----

  function ContentOf(lines: seq<string>, lo: int, hi: int): string
    requires 1 <= lo <= hi <= |lines|
  {
    Join(lines[lo - 1..hi])
  }

  function KeyOf(request: Request, c: CandidateFile, lo: nat, hi: nat, sha: Hex64, tokens: nat): ItemKey {
    ItemKey(request.repository, request.revision, c.id, c.file, lo, hi, sha, tokens)
  }

  /** ContextItem and Provenance: bounded line range, nonempty bounded content, matching digest, positive size. */
  function NewItem(env: Env, request: Request, c: CandidateFile, lo: int, hi: int,
        content: string): Result<ContextItem, ContextError>
    requires 0 <= lo && 0 <= hi
  {
    var data := Encode(content);
    var sha := env.hash(data);
    if !(1 <= lo <= MAX_LINE_NUMBER && 1 <= hi <= MAX_LINE_NUMBER && lo <= hi) then Err(InvalidItem)
    else if content == "" || |data| > MAX_CONTEXT_BYTES then Err(InvalidItem)
    else if !(1 <= |data| <= MAX_TOKEN_BUDGET) then Err(InvalidItem)
    else Ok(ContextItem(ItemIdentity(env.hash, KeyOf(request, c, lo, hi, sha, |data|)), c.id, request.repository,
                        request.revision, c.file, lo, hi, sha, content, |data|))
  }

  /** Everything but the content that the identity of an item digests. */
  function ItemKeyOf(item: ContextItem): ItemKey {
    ItemKey(item.repository, item.revision, item.candidate, item.file, item.start, item.end, item.contentSha,
            item.tokens)
  }

  function TokenSum(items: seq<ContextItem>): nat {
    if items == [] then 0 else items[0].tokens + TokenSum(items[1..])
  }

  predicate UniqueItems(items: seq<ContextItem>) {
    forall i, j :: 0 <= i < j < |items| ==> items[i].id != items[j].id
  }

  predicate FromRevision(request: Request, items: seq<ContextItem>) {
    forall i :: 0 <= i < |items| ==>
      items[i].repository == request.repository && items[i].revision == request.revision
  }

  /** TokenBudget and ContextBundle. */
  function NewBundle(request: Request, items: seq<ContextItem>, consumed: nat): Result<Bundle, ContextError> {
    if !(1 <= request.budget <= MAX_TOKEN_BUDGET) || consumed > MAX_TOKEN_BUDGET || consumed > request.budget
    then Err(InvalidBudget)
    else if |items| > MAX_CONTEXT_ITEMS then Err(InvalidBundle)
    else if !UniqueItems(items) then Err(DuplicateItem)
    else if !FromRevision(request, items)
    then Err(InvalidBundle)
    else if TokenSum(items) != consumed then Err(InvalidBundle)
    else Ok(Bundle(request.repository, request.revision, items, request.budget, consumed))
  }

  // ----- greedy packing -----

  ghost predicate SpansInFile(g: Group) {
    forall i :: 0 <= i < |g.spans| ==> 1 <= g.spans[i].start <= g.spans[i].end <= |g.lines|
  }

  function Prepend(items: seq<ContextItem>, r: Result<seq<ContextItem>,
        ContextError>): Result<seq<ContextItem>, ContextError> {
    if r.Err? then r else Ok(items + r.value)
  }

  /** Items for spans k.. of one group, with `remaining` tokens left and `have` items emitted. */
  function PackSpans(env: Env, request: Request, g: Group, k: nat, remaining: int,
        have: nat): Result<seq<ContextItem>, ContextError>
    requires SpansInFile(g) && k <= |g.spans|
    decreases |g.spans| - k
  {
    if k == |g.spans| || have >= MAX_CONTEXT_ITEMS then Ok([])
    else
      var fitted := Fitted(g.spans[k], LinePrefix(g.lines), Min(remaining, MAX_CONTEXT_BYTES));
      if fitted.None? then PackSpans(env, request, g, k + 1, remaining, have)
      else
        var (lo, hi) := fitted.value;
        FittedInside(g.spans[k], LinePrefix(g.lines), Min(remaining, MAX_CONTEXT_BYTES));
        var item := NewItem(env, request, g.candidate, lo, hi, ContentOf(g.lines, lo, hi));
        if item.Err? then Err(item.error)
        else Prepend([item.value], PackSpans(env, request, g, k + 1, remaining - item.value.tokens, have + 1))
  }

  function PackGroups(env: Env, request: Request, groups: seq<Group>, remaining: int,
        have: nat): Result<seq<ContextItem>, ContextError>
    requires forall i :: 0 <= i < |groups| ==> SpansInFile(groups[i])
  {
    if groups == [] || have >= MAX_CONTEXT_ITEMS then Ok([])
    else
      var first := PackSpans(env, request, groups[0], 0, remaining, have);
      if first.Err? then first
      else Prepend(first.value, PackGroups(env, request, groups[1..], remaining - TokenSum(first.value),
                                           have + |first.value|))
  }
}
