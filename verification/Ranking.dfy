/**
 Ranking of scored files and the rank contract the context module demands
 (candidates.py: generate_candidates; localisation.py: ordered_candidates;
 context.py: _require_rag003_rank_semantics).
 */
module Ranking {
  import opened Prelude
  import opened Identities

  const MAX_CANDIDATES: nat := 100_000

  datatype SymbolKind = Type | Method

  datatype Symbol = Symbol(kind: SymbolKind, name: string)

  /** One candidate; `symbols` are the structural pairs its signal details name. */
  datatype CandidateFile = CandidateFile(
    id: Identity, repository: Identity, revision: Identity, file: Identity, rank: int, score: int, symbols: seq<Symbol>)

  // ----- string order (by code point) -----

  predicate StrLess(a: string, b: string) {
    if b == "" then false
    else if a == "" then true
    else a[0] < b[0] || (a[0] == b[0] && StrLess(a[1..], b[1..]))
  }

  lemma {:induction false} StrTrichotomy(a: string, b: string)
    ensures a == b || StrLess(a, b) || StrLess(b, a)
    ensures !(StrLess(a, b) && StrLess(b, a)) && !StrLess(a, a)
  {
    if a != "" && b != "" {
      StrTrichotomy(a[1..], b[1..]);
      assert a == [a[0]] + a[1..] && b == [b[0]] + b[1..];
    }
    if a != "" { StrTrichotomy(a[1..], a[1..]); }
  }

  lemma {:induction false} StrTransitive(a: string, b: string, c: string)
    requires StrLess(a, b) && StrLess(b, c)
    ensures StrLess(a, c)
  {
    if a != "" && a[0] == b[0] && b[0] == c[0] {
      StrTransitive(a[1..], b[1..], c[1..]);
    }
  }

  /** The texts agree up to i, where `a` ends or has the smaller code point. */
  ghost predicate DiffersAt(a: string, b: string, i: nat) {
    i <= |a| && i < |b| && a[..i] == b[..i] && (i == |a| || a[i] < b[i])
  }

  lemma DiffersLater(a: string, b: string, i: nat)
    requires a != "" && b != "" && a[0] == b[0]
    ensures DiffersAt(a, b, i + 1) <==> DiffersAt(a[1..], b[1..], i)
  {
    if i < |a| && i < |b| {
      assert a[..i + 1] == [a[0]] + a[1..][..i] && b[..i + 1] == [b[0]] + b[1..][..i];
      assert a[1..][..i] == a[..i + 1][1..] && b[1..][..i] == b[..i + 1][1..];
    }
  }

  /** The first difference decides, and a proper prefix comes first. */
  lemma {:induction false} StrLessIs(a: string, b: string)
    ensures StrLess(a, b) <==> exists i: nat :: DiffersAt(a, b, i)
  {
    if a == "" || b == "" {
      assert b != "" ==> DiffersAt(a, b, 0);
    } else if a[0] != b[0] {
      assert a[0] < b[0] ==> DiffersAt(a, b, 0);
      assert forall i: nat :: DiffersAt(a, b, i) && i > 0 ==> a[..i][0] == b[..i][0];
    } else {
      StrLessIs(a[1..], b[1..]);
      if i: nat :| DiffersAt(a, b, i) { DiffersLater(a, b, i - 1); }
      if i: nat :| DiffersAt(a[1..], b[1..], i) { DiffersLater(a, b, i); }
    }
  }

  // ----- scoring order -----

  /** A file of the corpus with the contribution of each of its signals. */
  datatype Document = Document(path: Identity, contributions: seq<int>, symbols: seq<Symbol>)

  datatype Scored = Scored(score: int, path: Identity, symbols: seq<Symbol>)

  /** Only positive contributions are emitted; the score is their sum. */
  function Score(contributions: seq<int>): (r: int)
    ensures r >= 0
    ensures r > 0 <==> exists i :: 0 <= i < |contributions| && contributions[i] > 0
  {
    if contributions == [] then 0
    else
      var last := contributions[|contributions| - 1];
      Score(contributions[..|contributions| - 1]) + if last > 0 then last else 0
  }

  /** The positive contributions, added up from the first. */
  function PositiveTotal(contributions: seq<int>): int {
    if contributions == [] then 0
    else (if contributions[0] >= 1 then contributions[0] else 0) + PositiveTotal(contributions[1..])
  }

  lemma ScoreOne(x: int)
    ensures Score([x]) == if x > 0 then x else 0
  {
    assert [x][..0] == [];
  }

  /** The score of a file adds up over any way of cutting its contributions in two. */
  lemma {:induction false} ScoreAdds(a: seq<int>, b: seq<int>)
    ensures Score(a + b) == Score(a) + Score(b)
  {
    if b == [] {
      assert a + b == a;
    } else {
      var n := |b| - 1;
      assert (a + b)[..|a + b| - 1] == a + b[..n];
      ScoreAdds(a, b[..n]);
    }
  }

  lemma {:induction false} ScoreIsPositiveTotal(contributions: seq<int>)
    ensures Score(contributions) == PositiveTotal(contributions)
  {
    if contributions != [] {
      ScoreOne(contributions[0]);
      ScoreAdds([contributions[0]], contributions[1..]);
      ScoreIsPositiveTotal(contributions[1..]);
      assert [contributions[0]] + contributions[1..] == contributions;
    }
  }

  /** Raising one emitted contribution raises the score by as much, whatever the other signals say. */
  lemma ScoreRises(contributions: seq<int>, i: nat, n: nat)
    requires i < |contributions| && contributions[i] > 0
    ensures Score(contributions[i := contributions[i] + n]) == Score(contributions) + n
  {
    var before, x, after := contributions[..i], contributions[i], contributions[i + 1..];
    assert contributions == before + [x] + after;
    assert contributions[i := x + n] == before + [x + n] + after;
    ScoreAdds(before + [x], after);
    ScoreAdds(before + [x + n], after);
    ScoreAdds(before, [x]);
    ScoreAdds(before, [x + n]);
    ScoreOne(x);
    ScoreOne(x + n);
  }

  ghost predicate DistinctPaths(documents: seq<Document>) {
    forall i, j :: 0 <= i < j < |documents| ==> documents[i].path != documents[j].path
  }

  /** Descending score, ties by ascending path. */
  predicate Precedes(a: Scored, b: Scored) {
    a.score > b.score || (a.score == b.score && StrLess(a.path, b.path))
  }

  ghost predicate Ranked(s: seq<Scored>) {
    forall i, j :: 0 <= i < j < |s| ==> Precedes(s[i], s[j])
  }

  /** Positively scored files, in corpus order. */
  function ScoredOf(documents: seq<Document>): (r: seq<Scored>)
    ensures forall e :: e in r <==> exists i :: 0 <= i < |documents| && e == Entry(documents[i]) && e.score > 0
  {
    if documents == [] then []
    else
      var n := |documents| - 1;
      var front, e := ScoredOf(documents[..n]), Entry(documents[n]);
      assert forall i :: 0 <= i < n ==> documents[i] == documents[..n][i];
      if e.score > 0 then front + [e] else front
  }

  function Entry(d: Document): Scored {
    Scored(Score(d.contributions), d.path, d.symbols)
  }

  function InsertScored(s: seq<Scored>, e: Scored): seq<Scored> {
    if s == [] || !Precedes(e, s[|s| - 1]) then s + [e]
    else InsertScored(s[..|s| - 1], e) + [s[|s| - 1]]
  }

  function SortScored(s: seq<Scored>): seq<Scored> {
    if s == [] then [] else InsertScored(SortScored(s[..|s| - 1]), s[|s| - 1])
  }

  lemma {:induction false} InsertScoredElements(s: seq<Scored>, e: Scored)
    ensures forall x :: x in InsertScored(s, e) <==> x in s || x == e
  {
    if s != [] && Precedes(e, s[|s| - 1]) {
      var n := |s| - 1;
      InsertScoredElements(s[..n], e);
      assert s == s[..n] + [s[n]];
    }
  }

  lemma {:induction false} InsertScoredGood(s: seq<Scored>, e: Scored)
    requires Ranked(s) && forall i :: 0 <= i < |s| ==> s[i].path != e.path
    ensures Ranked(InsertScored(s, e))
  {
    if s == [] {
    } else if !Precedes(e, s[|s| - 1]) {
      forall i | 0 <= i < |s|
        ensures Precedes(s[i], e)
      {
        StrTrichotomy(s[|s| - 1].path, e.path);
        if i < |s| - 1 { PrecedesTransitive(s[i], s[|s| - 1], e); }
      }
    } else {
      var n := |s| - 1;
      InsertScoredGood(s[..n], e);
      InsertScoredElements(s[..n], e);
      var t := InsertScored(s[..n], e);
      forall i | 0 <= i < |t|
        ensures Precedes(t[i], s[n])
      {
        assert t[i] in t;
      }
    }
  }

  lemma PrecedesTransitive(a: Scored, b: Scored, c: Scored)
    requires Precedes(a, b) && Precedes(b, c)
    ensures Precedes(a, c)
  {
    if a.score == b.score && b.score == c.score { StrTransitive(a.path, b.path, c.path); }
  }

  ghost predicate DistinctScored(s: seq<Scored>) {
    forall i, j :: 0 <= i < j < |s| ==> s[i].path != s[j].path
  }

  lemma {:induction false} SortScoredGood(s: seq<Scored>)
    requires DistinctScored(s)
    ensures Ranked(SortScored(s)) && SameElements(SortScored(s), s)
  {
    if s != [] {
      var n := |s| - 1;
      SortScoredGood(s[..n]);
      var t := SortScored(s[..n]);
      assert s == s[..n] + [s[n]];
      forall i | 0 <= i < |t|
        ensures t[i].path != s[n].path
      {
        assert t[i] in t;
      }
      InsertScoredGood(t, s[n]);
      InsertScoredElements(t, s[n]);
    }
  }

  lemma RankedLast(s: seq<Scored>, e: Scored)
    requires Ranked(s) && e in s
    ensures e == s[|s| - 1] || Precedes(e, s[|s| - 1])
  {
  }

  lemma RankedFront(s: seq<Scored>, e: Scored)
    requires Ranked(s) && s != []
    ensures Ranked(s[..|s| - 1]) && (e in s[..|s| - 1] <==> e in s && e != s[|s| - 1])
  {
    var n := |s| - 1;
    StrTrichotomy(s[n].path, s[n].path);
    if e in s && e != s[n] {
      var i :| 0 <= i < |s| && s[i] == e;
      assert s[..n][i] == e;
    }
  }

  ghost predicate SameElements<T(!new)>(a: seq<T>, b: seq<T>) {
    forall e :: e in a <==> e in b
  }

  lemma SameElementsSymmetric<T(!new)>(a: seq<T>, b: seq<T>)
    requires SameElements(a, b)
    ensures a == [] <==> b == []
  {
    assert (b != [] ==> b[0] in a) && (a != [] ==> a[0] in b);
  }

  /** A ranked sequence is determined by its elements. */
  lemma {:induction false} RankedUnique(a: seq<Scored>, b: seq<Scored>)
    requires Ranked(a) && Ranked(b) && SameElements(a, b)
    ensures a == b
  {
    if a == [] {
      SameElementsSymmetric(a, b);
    } else {
      assert a[0] in b;
      var x, y := a[|a| - 1], b[|b| - 1];
      var a', b' := a[..|a| - 1], b[..|b| - 1];
      RankedLast(a, y);
      RankedLast(b, x);
      StrTrichotomy(x.path, y.path);
      assert x == y;
      forall e
        ensures e in a' <==> e in b'
      {
        RankedFront(a, e);
        RankedFront(b, e);
      }
      RankedFront(a, x);
      RankedFront(b, x);
      RankedUnique(a', b');
      assert a == a' + [x] && b == b' + [y];
    }
  }

  lemma ScoredPathsDistinct(documents: seq<Document>)
    requires DistinctPaths(documents)
    ensures DistinctScored(ScoredOf(documents))
  {
    if documents != [] {
      var n := |documents| - 1;
      ScoredPathsDistinct(documents[..n]);
      var s := ScoredOf(documents[..n]);
      forall i | 0 <= i < |s|
        ensures s[i].path != documents[n].path
      {
        assert s[i] in s;
        var k :| 0 <= k < n && s[i] == Entry(documents[..n][k]);
        assert documents[k].path != documents[n].path;
      }
    }
  }

  // ----- candidate generation -----

  /** All positively scored files in rank order. */
  function RankedFiles(documents: seq<Document>): seq<Scored> {
    SortScored(ScoredOf(documents))
  }

  function CandidateOf(h: Hash, repository: Identity, revision: Identity, e: Scored,
        rank: int): CandidateFile {
    CandidateFile(CandidateIdentity(h, repository, revision, e.path), repository, revision, e.path, rank, e.score,
                  e.symbols)
  }

  /** The first `limit` ranked files, with ranks 1..N and the candidate identity of each file. */
  function TopCandidates(h: Hash, repository: Identity, revision: Identity, documents: seq<Document>,
        limit: nat): (r: seq<CandidateFile>)
    ensures |r| == Min(|RankedFiles(documents)|, limit)
  {
    var ranked := RankedFiles(documents);
    var n := if |ranked| <= limit then |ranked| else limit;
    seq(n, i requires 0 <= i < n => CandidateOf(h, repository, revision, ranked[i], i + 1))
  }

  lemma TopCandidateAt(h: Hash, repository: Identity, revision: Identity, documents: seq<Document>, limit: nat)
    ensures var top, ranked := TopCandidates(h, repository, revision, documents, limit), RankedFiles(documents);
            forall i :: 0 <= i < |top| ==> top[i] == CandidateOf(h, repository, revision, ranked[i], i + 1)
  {
    hide CandidateIdentity, RankedFiles;
  }

  lemma RankedFilesGood(documents: seq<Document>)
    requires DistinctPaths(documents)
    ensures Ranked(RankedFiles(documents)) && SameElements(RankedFiles(documents), ScoredOf(documents))
  {
    ScoredPathsDistinct(documents);
    SortScoredGood(ScoredOf(documents));
  }

  lemma SameElementsChain<T(!new)>(a: seq<T>, b: seq<T>, c: seq<T>, d: seq<T>)
    requires SameElements(a, b) && SameElements(b, c) && SameElements(d, c)
    ensures SameElements(a, d)
  {
  }

  /** The ranking does not depend on the order in which the corpus was read. */
  lemma CorpusOrderIrrelevant(a: seq<Document>, b: seq<Document>)
    requires DistinctPaths(a) && DistinctPaths(b) && SameElements(a, b)
    ensures RankedFiles(a) == RankedFiles(b)
  {
    RankedFilesGood(a);
    RankedFilesGood(b);
    forall e
      ensures e in ScoredOf(a) <==> e in ScoredOf(b)
    {
      if e in ScoredOf(a) {
        var i :| 0 <= i < |a| && e == Entry(a[i]);
        assert a[i] in b;
      }
      if e in ScoredOf(b) {
        var i :| 0 <= i < |b| && e == Entry(b[i]);
        assert b[i] in a;
      }
    }
    SameElementsChain(RankedFiles(a), ScoredOf(a), ScoredOf(b), RankedFiles(b));
    RankedUnique(RankedFiles(a), RankedFiles(b));
  }

  /** A higher score comes first, and of equal scores the smaller path. */
  predicate Outranks(score: int, path: string, other: int, otherPath: string) {
    score > other || (score == other && path != otherPath && !StrLess(otherPath, path))
  }

  /** Exactly the best positively scored files are emitted: nothing left out outranks anything emitted. */
  lemma TopCandidatesAreBest(h: Hash, repository: Identity, revision: Identity,
        documents: seq<Document>, limit: nat, d: Document)
    requires DistinctPaths(documents) && d in documents && PositiveTotal(d.contributions) > 0
    ensures var top := TopCandidates(h, repository, revision, documents, limit);
            || (exists i :: 0 <= i < |top| && top[i].file == d.path && top[i].score == PositiveTotal(d.contributions))
            || (|top| == limit && forall i :: 0 <= i < |top| ==>
                  Outranks(top[i].score, top[i].file, PositiveTotal(d.contributions), d.path))
  {
    hide CandidateIdentity, TopCandidates, RankedFiles, Score, StrLess;
    TopCandidateAt(h, repository, revision, documents, limit);
    ScoreIsPositiveTotal(d.contributions);
    var top := TopCandidates(h, repository, revision, documents, limit);
    var ranked := RankedFiles(documents);
    RankedFilesGood(documents);
    assert Entry(d) in ScoredOf(documents);
    var k :| 0 <= k < |ranked| && ranked[k] == Entry(d);
    if k < |top| {
      assert top[k].file == d.path;
    } else {
      forall i | 0 <= i < |top| ensures Outranks(top[i].score, top[i].file, PositiveTotal(d.contributions), d.path) {
        assert Precedes(ranked[i], ranked[k]);
        StrTrichotomy(ranked[i].path, d.path);
      }
    }
  }

  /** The candidate is the document, with its symbols and the sum of its positive contributions. */
  predicate Scores(d: Document, c: CandidateFile) {
    c.file == d.path && c.symbols == d.symbols && c.score == PositiveTotal(d.contributions)
  }

  /** Every emitted candidate is a positively scored file of the corpus. */
  lemma TopCandidatesAreScored(h: Hash, repository: Identity, revision: Identity,
        documents: seq<Document>, limit: nat, i: nat)
    requires DistinctPaths(documents) && i < |TopCandidates(h, repository, revision, documents, limit)|
    ensures var c := TopCandidates(h, repository, revision, documents, limit)[i];
            && c.score > 0 && c.rank == i + 1
            && (exists k :: 0 <= k < |documents| && Scores(documents[k], c))
            && c.repository == repository && c.revision == revision
            && c.id == CandidateIdentity(h, repository, revision, c.file)
  {
    hide CandidateIdentity, TopCandidates, RankedFiles, Score;
    TopCandidateAt(h, repository, revision, documents, limit);
    RankedFilesGood(documents);
    var e := RankedFiles(documents)[i];
    assert e in RankedFiles(documents);
    var k :| 0 <= k < |documents| && e == Entry(documents[k]);
    ScoreIsPositiveTotal(documents[k].contributions);
    assert Scores(documents[k], TopCandidates(h, repository, revision, documents, limit)[i]);
  }

  // ----- the rank contract -----

  /** Ranks 1..N, scores descending, ties by ascending file identity. */
  ghost predicate GenuineRanks(candidates: seq<CandidateFile>) {
    && (forall i :: 0 <= i < |candidates| ==> candidates[i].rank == i + 1)
    && (forall i :: 0 < i < |candidates| ==> InOrder(candidates[i - 1], candidates[i]))
  }

  ghost predicate InOrder(previous: CandidateFile, candidate: CandidateFile) {
    && candidate.score <= previous.score
    && (candidate.score == previous.score ==> StrLess(previous.file, candidate.file))
  }

  ghost predicate DistinctIds(candidates: seq<CandidateFile>) {
    forall i, j :: 0 <= i < j < |candidates| ==> candidates[i].id != candidates[j].id
  }

  method RequireRankSemantics(candidates: seq<CandidateFile>) returns (ok: bool)
    ensures ok <==> GenuineRanks(candidates)
  {
    for i := 0 to |candidates|
      invariant GenuineRanks(candidates[..i])
    {
      var candidate := candidates[i];
      if candidate.rank != i + 1 { return false; }
      if i > 0 {
        var previous := candidates[i - 1];
        if candidate.score > previous.score { return false; }
        if candidate.score == previous.score && !StrLess(previous.file, candidate.file) { return false; }
      }
    }
    assert candidates[..|candidates|] == candidates;
    return true;
  }

  predicate RankBefore(a: CandidateFile, b: CandidateFile) {
    a.rank < b.rank || (a.rank == b.rank && !StrLess(b.id, a.id))
  }

  function InsertByRank(s: seq<CandidateFile>, c: CandidateFile): seq<CandidateFile> {
    if s == [] || RankBefore(s[|s| - 1], c) then s + [c]
    else InsertByRank(s[..|s| - 1], c) + [s[|s| - 1]]
  }

  function SortByRank(s: seq<CandidateFile>): seq<CandidateFile> {
    if s == [] then [] else InsertByRank(SortByRank(s[..|s| - 1]), s[|s| - 1])
  }

  /** By rank, and among equal ranks by identity. */
  ghost predicate InRankOrder(s: seq<CandidateFile>) {
    forall i, j :: 0 <= i < j < |s| ==>
      s[i].rank < s[j].rank || (s[i].rank == s[j].rank && !StrLess(s[j].id, s[i].id))
  }

  lemma RankBeforeTransitive(a: CandidateFile, b: CandidateFile, c: CandidateFile)
    requires RankBefore(a, b) && RankBefore(b, c)
    ensures RankBefore(a, c)
  {
    hide StrLess;
    StrTrichotomy(a.id, b.id);
    StrTrichotomy(b.id, c.id);
    StrTrichotomy(a.id, c.id);
    if StrLess(a.id, b.id) && StrLess(b.id, c.id) { StrTransitive(a.id, b.id, c.id); }
  }

  lemma {:induction false} InsertByRankAdds(s: seq<CandidateFile>, c: CandidateFile)
    ensures multiset(InsertByRank(s, c)) == multiset(s) + multiset{c}
  {
    hide RankBefore;
    if s != [] {
      InsertByRankAdds(s[..|s| - 1], c);
      assert s == s[..|s| - 1] + [s[|s| - 1]];
    }
  }

  lemma {:induction false} InsertByRankOrders(s: seq<CandidateFile>, c: CandidateFile)
    requires InRankOrder(s)
    ensures InRankOrder(InsertByRank(s, c))
  {
    hide StrLess;
    if s != [] {
      var n := |s| - 1;
      if RankBefore(s[n], c) {
        forall i | 0 <= i < n ensures RankBefore(s[i], c) { RankBeforeTransitive(s[i], s[n], c); }
      } else {
        InsertByRankOrders(s[..n], c);
        InsertByRankAdds(s[..n], c);
        AllRankedBefore(s, c, InsertByRank(s[..n], c));
      }
    }
  }

  lemma AllRankedBefore(s: seq<CandidateFile>, c: CandidateFile, rest: seq<CandidateFile>)
    requires InRankOrder(s) && s != [] && !RankBefore(s[|s| - 1], c)
    requires multiset(rest) == multiset(s[..|s| - 1]) + multiset{c}
    ensures forall i :: 0 <= i < |rest| ==> RankBefore(rest[i], s[|s| - 1])
  {
    hide StrLess;
    var n := |s| - 1;
    StrTrichotomy(s[n].id, c.id);
    forall i | 0 <= i < |rest| ensures RankBefore(rest[i], s[n]) {
      assert rest[i] in multiset(rest);
      if rest[i] != c {
        assert rest[i] in s[..n];
        var j :| 0 <= j < n && s[..n][j] == rest[i];
        assert s[j] == rest[i];
      }
    }
  }

  /** Ordering candidates loses none and puts them by rank, ties by identity. */
  lemma {:induction false} SortByRankSorts(s: seq<CandidateFile>)
    ensures InRankOrder(SortByRank(s)) && multiset(SortByRank(s)) == multiset(s)
  {
    hide InRankOrder;
    if s != [] {
      var n := |s| - 1;
      SortByRankSorts(s[..n]);
      InsertByRankAdds(SortByRank(s[..n]), s[n]);
      InsertByRankOrders(SortByRank(s[..n]), s[n]);
      assert s == s[..n] + [s[n]];
    } else {
      assert InRankOrder([]) by { NoRanks(); }
    }
  }

  lemma NoRanks()
    ensures InRankOrder([])
  {
  }

  lemma {:induction false} SortByRankKeeps(s: seq<CandidateFile>)
    requires forall i :: 0 <= i < |s| ==> s[i].rank == i + 1
    ensures SortByRank(s) == s
  {
    hide StrLess;
    if s != [] {
      var n := |s| - 1;
      SortByRankKeeps(s[..n]);
      assert n > 0 ==> RankBefore(s[..n][n - 1], s[n]);
      assert InsertByRank(s[..n], s[n]) == s[..n] + [s[n]] == s;
    }
  }

  datatype RankingError = LimitExceeded | DuplicateCandidate | InvalidRanking

  method OrderedCandidates(values: seq<CandidateFile>) returns (r: Result<seq<CandidateFile>, RankingError>)
    ensures |values| > MAX_CANDIDATES ==> r == Err(LimitExceeded)
    ensures |values| <= MAX_CANDIDATES ==>
              r == if DistinctIds(values) then Ok(SortByRank(values)) else Err(DuplicateCandidate)
  {
    if |values| > MAX_CANDIDATES { return Err(LimitExceeded); }
    var seen: set<Identity> := {};
    for i := 0 to |values|
      invariant seen == set k | 0 <= k < i :: values[k].id
      invariant forall k, j :: 0 <= k < j < i ==> values[k].id != values[j].id
    {
      if values[i].id in seen { return Err(DuplicateCandidate); }
      seen := seen + {values[i].id};
    }
    return Ok(SortByRank(values));
  }

  /** ContextAssemblyInput: the supplied order is checked verbatim and then left as it is. */
  method AcceptCandidates(supplied: seq<CandidateFile>) returns (r: Result<seq<CandidateFile>, RankingError>)
    ensures r.Ok? <==> GenuineRanks(supplied) && DistinctIds(supplied) && |supplied| <= MAX_CANDIDATES
    ensures r.Ok? ==> r.value == supplied
  {
    var genuine := RequireRankSemantics(supplied);
    if !genuine { return Err(InvalidRanking); }
    SortByRankKeeps(supplied);
    r := OrderedCandidates(supplied);
  }

  lemma TopCandidatesGenuine(h: Hash, repository: Identity, revision: Identity,
        documents: seq<Document>, limit: nat)
    requires DistinctPaths(documents)
    ensures GenuineRanks(TopCandidates(h, repository, revision, documents, limit))
  {
    hide CandidateIdentity, TopCandidates, RankedFiles, StrLess;
    TopCandidateAt(h, repository, revision, documents, limit);
    RankedFilesGood(documents);
    var ranked, top := RankedFiles(documents), TopCandidates(h, repository, revision, documents, limit);
    forall i | 0 < i < |top|
      ensures InOrder(top[i - 1], top[i])
    {
      assert Precedes(ranked[i - 1], ranked[i]);
    }
  }

  /** The digest collides on the identity inputs of two of these candidates. */
  ghost predicate CandidatesCollide(h: Hash, repository: Identity, revision: Identity, cs: seq<CandidateFile>) {
    exists i, j :: 0 <= i < j < |cs| && FilesCollide(h, repository, revision, cs[i].file, cs[j].file)
  }

  /** Sum of the emitted signals of one file. */
  method EmittedScore(contributions: seq<int>) returns (score: int, emitted: bool)
    ensures score == Score(contributions) && (emitted <==> score > 0)
  {
    score, emitted := 0, false;
    for k := 0 to |contributions|
      invariant score == Score(contributions[..k]) && (emitted <==> score > 0)
    {
      assert contributions[..k + 1][..k] == contributions[..k];
      if contributions[k] > 0 {
        score := score + contributions[k];
        emitted := true;
      }
    }
    assert contributions[..|contributions|] == contributions;
  }

  method ScoreCorpus(documents: seq<Document>) returns (scored: seq<Scored>)
    ensures scored == ScoredOf(documents)
  {
    scored := [];
    for i := 0 to |documents|
      invariant scored == ScoredOf(documents[..i])
    {
      assert documents[..i + 1][..i] == documents[..i];
      var score, emitted := EmittedScore(documents[i].contributions);
      if emitted {
        scored := scored + [Scored(score, documents[i].path, documents[i].symbols)];
      }
    }
    assert documents[..|documents|] == documents;
  }

  method EmitRanked(h: Hash, repository: Identity, revision: Identity, ranked: seq<Scored>,
        limit: nat)
    returns (candidates: seq<CandidateFile>)
    ensures |candidates| == if |ranked| <= limit then |ranked| else limit
    ensures forall i :: 0 <= i < |candidates| ==>
              candidates[i] == CandidateOf(h, repository, revision, ranked[i], i + 1)
  {
    hide CandidateIdentity;
    candidates := [];
    var rank := 0;
    while rank < |ranked| && rank < limit
      invariant rank == |candidates| <= |ranked| && rank <= limit
      invariant forall i :: 0 <= i < |candidates| ==>
                  candidates[i] == CandidateOf(h, repository, revision, ranked[i], i + 1)
    {
      var e := ranked[rank];
      rank := rank + 1;
      candidates := candidates + [CandidateFile(CandidateIdentity(h, repository, revision, e.path), repository,
                                                revision, e.path, rank, e.score, e.symbols)];
    }
  }

  /** Generation returns the top candidates, unless the digest collides on two of these very candidates. */
  method GenerateCandidates(h: Hash, repository: Identity, revision: Identity, documents: seq<Document>, limit: nat)
    returns (r: Result<seq<CandidateFile>, RankingError>)
    requires DistinctPaths(documents) && 1 <= limit <= MAX_CANDIDATES
    ensures var top := TopCandidates(h, repository, revision, documents, limit);
            r == if CandidatesCollide(h, repository, revision, top) then Err(DuplicateCandidate) else Ok(top)
  {
    hide CandidateIdentity, CandidatesCollide, TopCandidates, DistinctIds;
    TopCandidateAt(h, repository, revision, documents, limit);
    var scored := ScoreCorpus(documents);
    var candidates := EmitRanked(h, repository, revision, SortScored(scored), limit);
    assert candidates == TopCandidates(h, repository, revision, documents, limit);
    SortByRankKeeps(candidates);
    RepeatedIdsCollide(h, repository, revision, documents, limit);
    r := OrderedCandidates(candidates);
  }

  /**
   The top candidates are distinct files, so their identities repeat exactly when the digest
   collides on two of them.
   */
  lemma RepeatedIdsCollide(h: Hash, repository: Identity, revision: Identity, documents: seq<Document>, limit: nat)
    requires DistinctPaths(documents)
    ensures var top := TopCandidates(h, repository, revision, documents, limit);
            DistinctIds(top) <==> !CandidatesCollide(h, repository, revision, top)
  {
    hide CandidateIdentity, FilesCollide, TopCandidates, RankedFiles;
    TopCandidateAt(h, repository, revision, documents, limit);
    var top := TopCandidates(h, repository, revision, documents, limit);
    forall i, j | 0 <= i < j < |top|
      ensures top[i].id == top[j].id <==> FilesCollide(h, repository, revision, top[i].file, top[j].file)
    {
      RankedPathsDiffer(documents, i, j);
      SharedCandidateIsCollision(h, repository, revision, top[i].file, top[j].file);
    }
  }

  lemma RankedPathsDiffer(documents: seq<Document>, i: nat, j: nat)
    requires DistinctPaths(documents) && i < j < |RankedFiles(documents)|
    ensures RankedFiles(documents)[i].path != RankedFiles(documents)[j].path
  {
    RankedFilesGood(documents);
    var a, b := RankedFiles(documents)[i], RankedFiles(documents)[j];
    assert a in RankedFiles(documents) && b in RankedFiles(documents) && Precedes(a, b);
    var k :| 0 <= k < |documents| && a == Entry(documents[k]);
    var l :| 0 <= l < |documents| && b == Entry(documents[l]);
    StrTrichotomy(a.path, b.path);
  }
}
