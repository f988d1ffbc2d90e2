/**
 Opening bounded windows around located lines and merging them into disjoint
 coverage segments (context.py: _select_windows, _merge_proposals).

 A proposal's `extra` tuple is always `tuple(sorted(a set))`; the set itself
 stands for it here.
 */
module Windows {
  import opened Prelude

  const MAX_WINDOW: int := 80
  const LINES_BEFORE: int := 20
  const MAX_PROPOSALS: nat := 16

  datatype Proposal = Proposal(start: int, end: int, target: Option<int>, extra: set<int>) {
    ghost predicate Covers(line: int) {
      start <= line <= end
    }

    /** `line` is one of the structural targets this span promises to keep. */
    ghost predicate Carries(line: int) {
      target == Some(line) || line in extra
    }
  }

  ghost predicate CoveredBy(spans: seq<Proposal>, line: int) {
    exists i :: 0 <= i < |spans| && spans[i].Covers(line)
  }

  ghost predicate CarriedBy(spans: seq<Proposal>, line: int) {
    exists i :: 0 <= i < |spans| && spans[i].Carries(line)
  }

  // ----- windows around located lines -----

  ghost predicate Ascending(s: seq<int>) {
    forall i, j :: 0 <= i < j < |s| ==> s[i] < s[j]
  }

  function Window(line: int, count: int): Proposal {
    var start := Max(1, line - LINES_BEFORE);
    Proposal(start, Min(count, start + MAX_WINDOW - 1), Some(line), {})
  }

  function WindowsOf(located: seq<int>, count: int): (r: seq<Proposal>)
    ensures |r| == |located|
    ensures forall i :: 0 <= i < |r| ==> r[i] == Window(located[i], count)
  {
    seq(|located|, i requires 0 <= i < |located| => Window(located[i], count))
  }

  // ----- the merge, as the fold the loop computes -----

  /** One pass of the coverage loop over the segments emitted so far. */
  function CoverPass(segments: seq<Proposal>, covered: int): (r: int)
    ensures covered <= r <= Max(covered, MaxEnd(segments))
  {
    if segments == [] then covered
    else if segments[0].start <= covered + 1 && segments[0].end > covered then
      CoverPass(segments[1..], segments[0].end)
    else CoverPass(segments[1..], covered)
  }

  function MaxEnd(segments: seq<Proposal>): int {
    if segments == [] then 0 else Max(segments[0].end, MaxEnd(segments[1..]))
  }

  /** Passes repeat until one makes no progress; each progress step stays below MaxEnd. */
  function CoveredEnd(segments: seq<Proposal>, covered: int): (r: int)
    ensures covered <= r
    decreases Max(covered, MaxEnd(segments)) - covered
  {
    var next := CoverPass(segments, covered);
    if next == covered then covered else CoveredEnd(segments, next)
  }

  /** Index of the first segment that contains `line`, or |segments|. */
  function FirstContaining(segments: seq<Proposal>, line: int): (r: nat)
    ensures r <= |segments|
    ensures r < |segments| ==> segments[r].start <= line <= segments[r].end
    ensures forall i :: 0 <= i < r ==> !(segments[i].start <= line <= segments[i].end)
  {
    if segments == [] then 0
    else if segments[0].start <= line <= segments[0].end then 0
    else 1 + FirstContaining(segments[1..], line)
  }

  function SplitPoint(carrier: Proposal, target: int): int {
    var split := Max(carrier.start + 1, target - LINES_BEFORE);
    if carrier.target.Some? && carrier.target.value >= split then Min(carrier.target.value + 1, target) else split
  }

  function LeftHalf(carrier: Proposal, split: int): Proposal {
    Proposal(carrier.start, split - 1,
             if carrier.target.Some? && carrier.target.value < split then carrier.target else None,
             set a | a in carrier.extra && a < split)
  }

  function RightHalf(carrier: Proposal, split: int, end: int, target: int): Proposal {
    Proposal(split, end, Some(target),
             (set a | a in carrier.extra && a >= split) + {target} +
             (if carrier.target.Some? && carrier.target.value >= split then {carrier.target.value} else {}))
  }

  function AppendUncovered(segments: seq<Proposal>, p: Proposal, covered: int): seq<Proposal> {
    if covered >= p.end then segments
    else
      var target := if p.target.Some? && p.target.value < covered + 1 then None else p.target;
      segments + [Proposal(covered + 1, p.end, target, {})]
  }

  function MergeStep(segments: seq<Proposal>, p: Proposal): seq<Proposal> {
    var covered := CoveredEnd(segments, p.start - 1);
    if p.target.Some? && p.target.value < covered + 1 then
      var target := p.target.value;
      var k := FirstContaining(segments, target);
      if k == |segments| then AppendUncovered(segments, p, covered)
      else
        var carrier := segments[k];
        if target > carrier.start && carrier.target != Some(target) && (covered < p.end || p.end < carrier.end) then
          var split := SplitPoint(carrier, target);
          var right := if covered < p.end then p.end else carrier.end;
          segments[..k] + [LeftHalf(carrier, split), RightHalf(carrier, split, right, target)] + segments[k + 1..]
        else if covered >= p.end && carrier.target != Some(target) && target !in carrier.extra then
          segments[k := carrier.(extra := carrier.extra + {target})]
        else AppendUncovered(segments, p, covered)
    else AppendUncovered(segments, p, covered)
  }

  function MergeAll(proposals: seq<Proposal>): seq<Proposal> {
    if proposals == [] then []
    else MergeStep(MergeAll(proposals[..|proposals| - 1]), proposals[|proposals| - 1])
  }

  // ----- what the merge promises, for windows around located lines -----

  ghost predicate Located(located: seq<int>, count: int) {
    Ascending(located) && forall i :: 0 <= i < |located| ==> 1 <= located[i] <= count
  }

  /** Sorted, pairwise disjoint segments of 1..80 lines inside the file. */
  ghost predicate Disjoint(segments: seq<Proposal>, count: int) {
    && (forall i :: 0 <= i < |segments| ==>
          1 <= segments[i].start <= segments[i].end <= count && segments[i].end - segments[i].start < MAX_WINDOW)
    && (forall i, j :: 0 <= i < j < |segments| ==> segments[i].end < segments[j].start)
  }

  /** Every promised target lies inside the segment that promises it. */
  ghost predicate TargetsInside(segments: seq<Proposal>) {
    forall i, line :: 0 <= i < |segments| && segments[i].Carries(line) ==> segments[i].Covers(line)
  }

  /** Every located line is promised by some segment, and nothing else is. */
  ghost predicate NoTargetLost(segments: seq<Proposal>, located: seq<int>) {
    forall line :: line in located <==> CarriedBy(segments, line)
  }

  ghost predicate SameLines(segments: seq<Proposal>, windows: seq<Proposal>) {
    forall line :: CoveredBy(segments, line) <==> CoveredBy(windows, line)
  }

  ghost predicate GoodMerge(segments: seq<Proposal>, located: seq<int>, count: int) {
    && Disjoint(segments, count)
    && TargetsInside(segments)
    && NoTargetLost(segments, located)
    && SameLines(segments, WindowsOf(located, count))
  }

  /** The last segment ends with the last window and starts no later than the last target. */
  ghost predicate LastAnchored(segments: seq<Proposal>, located: seq<int>, count: int) {
    if located == [] then segments == []
    else
      && segments != []
      && segments[|segments| - 1].end == Window(located[|located| - 1], count).end
      && segments[|segments| - 1].start <= located[|located| - 1]
  }

  // ----- proof -----

  lemma CoveredByConcat(a: seq<Proposal>, b: seq<Proposal>, line: int)
    ensures CoveredBy(a + b, line) <==> CoveredBy(a, line) || CoveredBy(b, line)
    ensures CarriedBy(a + b, line) <==> CarriedBy(a, line) || CarriedBy(b, line)
  {
    assert forall i :: 0 <= i < |a| ==> (a + b)[i] == a[i];
    assert forall i :: 0 <= i < |b| ==> (a + b)[|a| + i] == b[i];
  }

  lemma CoveredByOne(p: Proposal, line: int)
    ensures CoveredBy([p], line) <==> p.Covers(line)
    ensures CarriedBy([p], line) <==> p.Carries(line)
  {
    assert [p][0] == p;
  }

  lemma {:induction false} CoverPassStuck(segments: seq<Proposal>, covered: int)
    requires CoverPass(segments, covered) == covered
    ensures forall i :: 0 <= i < |segments| ==> !(segments[i].start <= covered + 1 && segments[i].end > covered)
  {
    if segments != [] {
      CoverPassStuck(segments[1..], covered);
      forall i | 0 <= i < |segments|
        ensures !(segments[i].start <= covered + 1 && segments[i].end > covered)
      {
        if i > 0 { assert segments[i] == segments[1..][i - 1]; }
      }
    }
  }

  /** The coverage loop stops only where no segment continues the covered run. */
  lemma {:induction false} CoveredEndStuck(segments: seq<Proposal>, covered: int)
    ensures var r := CoveredEnd(segments, covered);
            forall i :: 0 <= i < |segments| ==> !(segments[i].start <= r + 1 && segments[i].end > r)
    decreases Max(covered, MaxEnd(segments)) - covered
  {
    var next := CoverPass(segments, covered);
    if next == covered { CoverPassStuck(segments, covered); } else { CoveredEndStuck(segments, next); }
  }

  lemma {:induction false} CoverPassBound(segments: seq<Proposal>, covered: int, m: int)
    requires covered <= m && forall i :: 0 <= i < |segments| ==> segments[i].end <= m
    ensures CoverPass(segments, covered) <= m
  {
    if segments != [] {
      assert segments[0].end <= m;
      var reached := if segments[0].start <= covered + 1 && segments[0].end > covered then segments[0].end else covered;
      CoverPassBound(segments[1..], reached, m);
    }
  }

  lemma {:induction false} CoveredEndBound(segments: seq<Proposal>, covered: int, m: int)
    requires covered <= m && forall i :: 0 <= i < |segments| ==> segments[i].end <= m
    ensures CoveredEnd(segments, covered) <= m
    decreases Max(covered, MaxEnd(segments)) - covered
  {
    CoverPassBound(segments, covered, m);
    var next := CoverPass(segments, covered);
    if next != covered { CoveredEndBound(segments, next, m); }
  }

  /** The state after merging the windows of `located`, ready for the next target `t`. */
  ghost predicate Ready(segments: seq<Proposal>, located: seq<int>, t: int, count: int) {
    && Located(located + [t], count)
    && GoodMerge(segments, located, count)
    && LastAnchored(segments, located, count)
  }

  lemma ReadyFacts(segments: seq<Proposal>, located: seq<int>, t: int, count: int)
    requires Ready(segments, located, t, count) && located != []
    ensures var prev := located[|located| - 1];
            && prev < t <= count && 1 <= prev
            && segments[|segments| - 1].start <= prev
            && segments[|segments| - 1].end == Window(prev, count).end <= Window(t, count).end
            && Window(prev, count).start <= Window(t, count).start <= t <= Window(t, count).end
    ensures forall line :: line in located ==> line < t
    ensures forall i :: 0 <= i < |segments| ==> segments[i].end <= segments[|segments| - 1].end
  {
    var all := located + [t];
    assert all[|located|] == t && all[|located| - 1] == located[|located| - 1];
    forall line | line in located
      ensures line < t
    {
      var i :| 0 <= i < |located| && located[i] == line;
      assert all[i] == line && all[|located|] == t;
    }
    forall i | 0 <= i < |segments|
      ensures segments[i].end <= segments[|segments| - 1].end
    {
      if i < |segments| - 1 { assert segments[i].end < segments[|segments| - 1].start; }
    }
  }

  /** Lines from the new window's start to the last segment's end are all covered already. */
  lemma PreviousWindowCovers(segments: seq<Proposal>, located: seq<int>, t: int, count: int, line: int)
    requires Ready(segments, located, t, count) && located != []
    requires Window(t, count).start <= line <= segments[|segments| - 1].end
    ensures CoveredBy(segments, line)
  {
    ReadyFacts(segments, located, t, count);
    var windows := WindowsOf(located, count);
    assert windows[|located| - 1].Covers(line);
    assert CoveredBy(windows, line);
  }

  /** The coverage loop ends exactly at the previous window's end when the windows overlap. */
  lemma CoveredEndIs(segments: seq<Proposal>, located: seq<int>, t: int, count: int)
    requires Ready(segments, located, t, count)
    ensures var start := Window(t, count).start;
            CoveredEnd(segments, start - 1) ==
              if located == [] then start - 1 else Max(start - 1, segments[|segments| - 1].end)
  {
    var start := Window(t, count).start;
    if located == [] {
      assert CoverPass([], start - 1) == start - 1;
    } else {
      CoveredEndReaches(segments, located, t, count);
      ReadyFacts(segments, located, t, count);
      CoveredEndBound(segments, start - 1, Max(start - 1, segments[|segments| - 1].end));
    }
  }

  lemma CoveredEndReaches(segments: seq<Proposal>, located: seq<int>, t: int, count: int)
    requires Ready(segments, located, t, count) && located != []
    ensures CoveredEnd(segments, Window(t, count).start - 1) >= segments[|segments| - 1].end
  {
    var start := Window(t, count).start;
    var r := CoveredEnd(segments, start - 1);
    CoveredEndStuck(segments, start - 1);
    assert !CoveredBy(segments, r + 1);
    if r < segments[|segments| - 1].end {
      PreviousWindowCovers(segments, located, t, count, r + 1);
    }
  }

  /** Adding the new window's uncovered lines keeps segments and windows equal as line sets. */
  lemma SameLinesExtended(segments: seq<Proposal>, after: seq<Proposal>, located: seq<int>, t: int, count: int,
        covered: int)
    requires SameLines(segments, WindowsOf(located, count))
    requires var w := Window(t, count); w.start - 1 <= covered <= w.end
    requires forall line :: Window(t, count).start <= line <= covered ==> CoveredBy(segments, line)
    requires forall line :: CoveredBy(after, line) <==>
              CoveredBy(segments, line) || covered < line <= Window(t, count).end
    ensures SameLines(after, WindowsOf(located + [t], count))
  {
    var w := Window(t, count);
    var windows := WindowsOf(located, count);
    assert WindowsOf(located + [t], count) == windows + [w];
    forall line
      ensures CoveredBy(after, line) <==> CoveredBy(windows + [w], line)
    {
      CoveredByConcat(windows, [w], line);
      CoveredByOne(w, line);
    }
  }

  lemma NoTargetLostExtended(segments: seq<Proposal>, after: seq<Proposal>, located: seq<int>, t: int)
    requires NoTargetLost(segments, located)
    requires forall line :: CarriedBy(after, line) <==> CarriedBy(segments, line) || line == t
    ensures NoTargetLost(after, located + [t])
  {
  }

  /** Segments that keep everything but the last one, which `tail` replaces. */
  lemma DisjointRebuilt(segments: seq<Proposal>, tail: seq<Proposal>, count: int)
    requires Disjoint(segments, count) && TargetsInside(segments) && segments != []
    requires Disjoint(tail, count) && TargetsInside(tail)
    requires forall j :: 0 <= j < |tail| ==> segments[|segments| - 1].start <= tail[j].start
    ensures Disjoint(segments[..|segments| - 1] + tail, count)
    ensures TargetsInside(segments[..|segments| - 1] + tail)
  {
  }

  lemma AppendGood(segments: seq<Proposal>, located: seq<int>, t: int, count: int, covered: int)
    requires Ready(segments, located, t, count)
    requires covered == CoveredEnd(segments, Window(t, count).start - 1) && covered < t
    ensures var after := segments + [Proposal(covered + 1, Window(t, count).end, Some(t), {})];
            GoodMerge(after, located + [t], count) && LastAnchored(after, located + [t], count)
  {
    var w := Window(t, count);
    var added := Proposal(covered + 1, w.end, Some(t), {});
    var after := segments + [added];
    CoveredEndIs(segments, located, t, count);
    assert (located + [t])[|located|] == t;
    if located != [] { ReadyFacts(segments, located, t, count); }
    forall line
      ensures CoveredBy(after, line) <==> CoveredBy(segments, line) || covered < line <= w.end
      ensures CarriedBy(after, line) <==> CarriedBy(segments, line) || line == t
    {
      CoveredByConcat(segments, [added], line);
      CoveredByOne(added, line);
    }
    forall line | w.start <= line <= covered
      ensures CoveredBy(segments, line)
    {
      PreviousWindowCovers(segments, located, t, count, line);
    }
    SameLinesExtended(segments, after, located, t, count, covered);
    NoTargetLostExtended(segments, after, located, t);
  }

  /** Replacing the last segment by `tail` covers and carries what it did, and what `tail` adds. */
  lemma ReplacedLast(segments: seq<Proposal>, tail: seq<Proposal>, line: int)
    requires segments != []
    requires segments[|segments| - 1].Covers(line) ==> CoveredBy(tail, line)
    requires segments[|segments| - 1].Carries(line) ==> CarriedBy(tail, line)
    ensures var after := segments[..|segments| - 1] + tail;
            && (CoveredBy(after, line) <==> CoveredBy(segments, line) || CoveredBy(tail, line))
            && (CarriedBy(after, line) <==> CarriedBy(segments, line) || CarriedBy(tail, line))
  {
    var n := |segments| - 1;
    var front, last := segments[..n], segments[n];
    assert segments == front + [last];
    CoveredByConcat(front, [last], line);
    CoveredByOne(last, line);
    CoveredByConcat(front, tail, line);
  }

  lemma CollapseGood(segments: seq<Proposal>, located: seq<int>, t: int, count: int)
    requires Ready(segments, located, t, count) && located != []
    requires t <= segments[|segments| - 1].end == Window(t, count).end
    ensures var k := |segments| - 1;
            var after := segments[k := segments[k].(extra := segments[k].extra + {t})];
            GoodMerge(after, located + [t], count) && LastAnchored(after, located + [t], count)
  {
    var k := |segments| - 1;
    var last := segments[k];
    var widened := last.(extra := last.extra + {t});
    var after := segments[k := widened];
    assert after == segments[..k] + [widened];
    var w := Window(t, count);
    assert (located + [t])[|located|] == t;
    ReadyFacts(segments, located, t, count);
    forall line
      ensures CoveredBy(after, line) <==> CoveredBy(segments, line)
      ensures CarriedBy(after, line) <==> CarriedBy(segments, line) || line == t
    {
      CoveredByOne(widened, line);
      ReplacedLast(segments, [widened], line);
      if last.Covers(line) { assert segments[k].Covers(line); }
      if last.Carries(line) { assert segments[k].Carries(line); }
    }
    forall line | w.start <= line <= w.end
      ensures CoveredBy(segments, line)
    {
      PreviousWindowCovers(segments, located, t, count, line);
    }
    assert TargetsInside([widened]) by {
      assert segments[k].Covers(t);
      assert forall line :: widened.Carries(line) ==> line == t || last.Carries(line);
    }
    assert Disjoint([widened], count) by { assert segments[k] == last; }
    DisjointRebuilt(segments, [widened], count);
    SameLinesExtended(segments, after, located, t, count, w.end);
    NoTargetLostExtended(segments, after, located, t);
  }

  /** The two halves partition the widened carrier and share its targets correctly. */
  lemma HalvesPartition(carrier: Proposal, t: int, end: int, count: int)
    requires 1 <= carrier.start < t <= carrier.end < end <= count
    requires carrier.end - carrier.start < MAX_WINDOW && end <= t - LINES_BEFORE + MAX_WINDOW - 1
    requires forall line :: carrier.Carries(line) ==> carrier.Covers(line) && line < t
    ensures var split := SplitPoint(carrier, t);
            var tail := [LeftHalf(carrier, split), RightHalf(carrier, split, end, t)];
            && carrier.start < split <= t
            && Disjoint(tail, count) && TargetsInside(tail)
            && (forall line :: CoveredBy(tail, line) <==> carrier.start <= line <= end)
            && (forall line :: CarriedBy(tail, line) <==> carrier.Carries(line) || line == t)
  {
    var split := SplitPoint(carrier, t);
    var left, right := LeftHalf(carrier, split), RightHalf(carrier, split, end, t);
    var tail := [left, right];
    if carrier.target.Some? { assert carrier.Carries(carrier.target.value); }
    assert carrier.start < split <= t && t - LINES_BEFORE <= split;
    assert forall a :: a in carrier.extra ==> carrier.Carries(a);
    assert Disjoint(tail, count);
    forall line
      ensures CoveredBy(tail, line) <==> carrier.start <= line <= end
      ensures CarriedBy(tail, line) <==> carrier.Carries(line) || line == t
    {
      CoveredByConcat([left], [right], line);
      CoveredByOne(left, line);
      CoveredByOne(right, line);
      assert tail == [left] + [right];
    }
  }

  lemma SplitGood(segments: seq<Proposal>, located: seq<int>, t: int, count: int)
    requires Ready(segments, located, t, count) && located != []
    requires t <= segments[|segments| - 1].end < Window(t, count).end
    ensures var k := |segments| - 1;
            var split := SplitPoint(segments[k], t);
            var after := segments[..k] + [LeftHalf(segments[k], split),
                                          RightHalf(segments[k], split, Window(t, count).end, t)];
            GoodMerge(after, located + [t], count) && LastAnchored(after, located + [t], count)
  {
    var k := |segments| - 1;
    var carrier := segments[k];
    var w := Window(t, count);
    var split := SplitPoint(carrier, t);
    var tail := [LeftHalf(carrier, split), RightHalf(carrier, split, w.end, t)];
    var after := segments[..k] + tail;
    assert (located + [t])[|located|] == t;
    ReadyFacts(segments, located, t, count);
    forall line | carrier.Carries(line)
      ensures carrier.Covers(line) && line < t
    {
      assert segments[k].Carries(line);
      assert CarriedBy(segments, line);
    }
    HalvesPartition(carrier, t, w.end, count);
    forall line
      ensures CoveredBy(after, line) <==> CoveredBy(segments, line) || carrier.end < line <= w.end
      ensures CarriedBy(after, line) <==> CarriedBy(segments, line) || line == t
    {
      ReplacedLast(segments, tail, line);
      if carrier.Covers(line) { assert segments[k].Covers(line); }
      if carrier.Carries(line) { assert segments[k].Carries(line); }
    }
    forall line | w.start <= line <= carrier.end
      ensures CoveredBy(segments, line)
    {
      PreviousWindowCovers(segments, located, t, count, line);
    }
    DisjointRebuilt(segments, tail, count);
    SameLinesExtended(segments, after, located, t, count, carrier.end);
    NoTargetLostExtended(segments, after, located, t);
  }

  lemma StepAppends(segments: seq<Proposal>, p: Proposal, t: int)
    requires p.target == Some(t) && p.extra == {} && t <= p.end && CoveredEnd(segments, p.start - 1) < t
    ensures MergeStep(segments, p) == segments + [Proposal(CoveredEnd(segments, p.start - 1) + 1, p.end, Some(t), {})]
  {
  }

  /** The carrier is the last segment: it is split when coverage must grow, widened otherwise. */
  lemma StepRepartitions(segments: seq<Proposal>, p: Proposal, t: int)
    requires p.target == Some(t) && segments != []
    requires var last := segments[|segments| - 1];
             && FirstContaining(segments, t) == |segments| - 1
             && CoveredEnd(segments, p.start - 1) == last.end <= p.end
             && last.start < t <= last.end && !last.Carries(t)
    ensures var k := |segments| - 1;
            var last := segments[k];
            MergeStep(segments, p) ==
              if last.end < p.end then
                segments[..k] + [LeftHalf(last, SplitPoint(last, t)), RightHalf(last, SplitPoint(last, t), p.end, t)]
              else segments[k := last.(extra := last.extra + {t})]
  {
    assert segments[|segments| - 1 + 1..] == [];
  }

  /** The new target lies in old coverage: the last segment is split or widened. */
  lemma RepartitionGood(segments: seq<Proposal>, located: seq<int>, t: int, count: int)
    requires Ready(segments, located, t, count) && located != []
    requires t <= segments[|segments| - 1].end
    ensures var after := MergeStep(segments, Window(t, count));
            GoodMerge(after, located + [t], count) && LastAnchored(after, located + [t], count)
  {
    var w := Window(t, count);
    var last := segments[|segments| - 1];
    CoveredEndIs(segments, located, t, count);
    ReadyFacts(segments, located, t, count);
    CarrierIsLast(segments, t, count);
    assert last.Carries(t) ==> CarriedBy(segments, t);
    StepRepartitions(segments, w, t);
    if last.end < w.end {
      SplitGood(segments, located, t, count);
    } else {
      CollapseGood(segments, located, t, count);
    }
  }

  lemma MergeStepGood(segments: seq<Proposal>, located: seq<int>, t: int, count: int)
    requires Ready(segments, located, t, count)
    ensures var after := MergeStep(segments, Window(t, count));
            GoodMerge(after, located + [t], count) && LastAnchored(after, located + [t], count)
  {
    hide GoodMerge;
    if located != [] && t <= segments[|segments| - 1].end {
      RepartitionGood(segments, located, t, count);
    } else {
      var covered := CoveredEnd(segments, Window(t, count).start - 1);
      FreshTarget(segments, located, t, count);
      StepAppends(segments, Window(t, count), t);
      AppendGood(segments, located, t, count, covered);
    }
  }

  lemma FreshTarget(segments: seq<Proposal>, located: seq<int>, t: int, count: int)
    requires Ready(segments, located, t, count)
    requires located == [] || segments[|segments| - 1].end < t
    ensures CoveredEnd(segments, Window(t, count).start - 1) < t <= Window(t, count).end
  {
    CoveredEndIs(segments, located, t, count);
    assert (located + [t])[|located|] == t;
    if located != [] { ReadyFacts(segments, located, t, count); }
  }

  lemma CarrierIsLast(segments: seq<Proposal>, t: int, count: int)
    requires Disjoint(segments, count) && segments != []
    requires segments[|segments| - 1].start <= t <= segments[|segments| - 1].end
    ensures FirstContaining(segments, t) == |segments| - 1
  {
  }

  lemma {:induction false} MergeAllGood(located: seq<int>, count: int)
    requires Located(located, count)
    ensures GoodMerge(MergeAll(WindowsOf(located, count)), located, count)
    ensures LastAnchored(MergeAll(WindowsOf(located, count)), located, count)
  {
    var windows := WindowsOf(located, count);
    if located == [] {
      assert windows == [];
    } else {
      var n := |located| - 1;
      var front, t := located[..n], located[n];
      assert located == front + [t];
      assert windows[..n] == WindowsOf(front, count) && windows[n] == Window(t, count);
      assert Located(front, count);
      MergeAllGood(front, count);
      MergeStepGood(MergeAll(windows[..n]), front, t, count);
    }
  }

  // ----- where the merge cuts -----

  /** The located lines that get a segment of their own: those whose window reaches further than all before. */
  function Anchors(located: seq<int>, count: int): seq<int> {
    if located == [] then []
    else
      var n := |located| - 1;
      var front := Anchors(located[..n], count);
      if n == 0 || Window(located[n - 1], count).end < Window(located[n], count).end then front + [located[n]]
      else front
  }

  /**
   A segment starts with its anchor's window. When the anchor lies in the window of the anchor
   before it, the two share that window, which is cut LINES_BEFORE lines above the later anchor,
   but below the earlier one; otherwise only lines that the earlier window left are new.
   */
  function CutStart(anchors: seq<int>, i: nat, count: int): int
    requires i < |anchors|
  {
    var window := Window(anchors[i], count);
    if i == 0 then window.start
    else
      var before := Window(anchors[i - 1], count);
      if anchors[i] <= before.end then Max(anchors[i - 1] + 1, anchors[i] - LINES_BEFORE)
      else Max(window.start, before.end + 1)
  }

  /** A segment ends with its anchor's window or where the next segment starts. */
  function CutEnd(anchors: seq<int>, i: nat, count: int): int
    requires i < |anchors|
  {
    var end := Window(anchors[i], count).end;
    if i + 1 == |anchors| then end else Min(end, CutStart(anchors, i + 1, count) - 1)
  }

  ghost predicate CutAt(p: Proposal, anchors: seq<int>, i: nat, count: int)
    requires i < |anchors|
  {
    p.target == Some(anchors[i]) && p.start == CutStart(anchors, i, count) && p.end == CutEnd(anchors, i, count)
  }

  /** One segment for each anchor, cut there and nowhere else. */
  ghost predicate CutAtAnchors(segments: seq<Proposal>, anchors: seq<int>, count: int) {
    |segments| == |anchors| && forall i :: 0 <= i < |segments| ==> CutAt(segments[i], anchors, i, count)
  }

  /** The last anchor's window reaches as far as the last located line's. */
  lemma {:induction false} LastAnchor(located: seq<int>, count: int)
    requires Located(located, count) && located != []
    ensures var anchors := Anchors(located, count);
            && anchors != [] && 1 <= anchors[|anchors| - 1] <= located[|located| - 1]
            && Window(anchors[|anchors| - 1], count).end == Window(located[|located| - 1], count).end
  {
    var n := |located| - 1;
    if n > 0 && Window(located[n - 1], count).end >= Window(located[n], count).end {
      assert located[n - 1] < located[n];
      LastAnchor(located[..n], count);
    }
  }

  lemma FrontLocated(located: seq<int>, t: int, count: int)
    requires Located(located + [t], count)
    ensures Located(located, count)
  {
    assert forall i :: 0 <= i < |located| ==> (located + [t])[i] == located[i];
  }

  lemma AnchorsOf(located: seq<int>, t: int, count: int)
    ensures var front := Anchors(located, count);
            Anchors(located + [t], count) ==
              if located == [] || Window(located[|located| - 1], count).end < Window(t, count).end then front + [t]
              else front
  {
    assert (located + [t])[..|located|] == located;
  }

  /** The segments before the last, and the start of the last, do not change when another anchor follows. */
  lemma CutsBefore(anchors: seq<int>, t: int, i: nat, count: int)
    requires i < |anchors|
    ensures CutStart(anchors + [t], i, count) == CutStart(anchors, i, count)
    ensures i + 1 < |anchors| ==> CutEnd(anchors + [t], i, count) == CutEnd(anchors, i, count)
  {
    if i + 1 < |anchors| { assert (anchors + [t])[i + 1] == anchors[i + 1]; }
  }

  /** Segments cut at the anchors, but for the end of the last one, and the segment of a new anchor. */
  lemma CutsAdded(segments: seq<Proposal>, last: Proposal, added: Proposal, anchors: seq<int>, t: int, count: int)
    requires CutAtAnchors(segments, anchors, count) && segments != []
    requires last.target == segments[|segments| - 1].target && last.start == segments[|segments| - 1].start
    requires last.end == CutEnd(anchors + [t], |anchors| - 1, count)
    requires CutAt(added, anchors + [t], |anchors|, count)
    ensures CutAtAnchors(segments[..|segments| - 1] + [last, added], anchors + [t], count)
  {
    hide CutStart, CutEnd;
    var n := |segments| - 1;
    var after := segments[..n] + [last, added];
    forall i | 0 <= i < |after| ensures CutAt(after[i], anchors + [t], i, count) {
      if i <= n { CutsBefore(anchors, t, i, count); }
      if i < n { assert after[i] == segments[i]; }
    }
  }

  /** Where the new target's window ends past the last one and holds no earlier coverage of it, it is appended. */
  lemma AppendCuts(segments: seq<Proposal>, located: seq<int>, t: int, count: int)
    requires Ready(segments, located, t, count) && CutAtAnchors(segments, Anchors(located, count), count)
    requires located == [] || segments[|segments| - 1].end < t
    ensures CutAtAnchors(MergeStep(segments, Window(t, count)), Anchors(located + [t], count), count)
  {
    hide GoodMerge, MergeStep, CoveredEnd, Anchors;
    var anchors := Anchors(located, count);
    AnchorsOf(located, t, count);
    FreshTarget(segments, located, t, count);
    StepAppends(segments, Window(t, count), t);
    CoveredEndIs(segments, located, t, count);
    if located == [] {
      NoAnchors(count);
    } else {
      ReadyFacts(segments, located, t, count);
      FrontLocated(located, t, count);
      LastAnchor(located, count);
      var n := |segments| - 1;
      var added := Proposal(CoveredEnd(segments, Window(t, count).start - 1) + 1, Window(t, count).end, Some(t), {});
      assert CutAt(segments[n], anchors, n, count);
      CutsAdded(segments, segments[n], added, anchors, t, count);
      assert segments + [added] == segments[..n] + [segments[n], added];
    }
  }

  lemma NoAnchors(count: int)
    ensures Anchors([], count) == []
  {
  }

  /** Inside the last window the cut falls LINES_BEFORE lines above the new target, but below the last anchor. */
  lemma SplitCuts(segments: seq<Proposal>, located: seq<int>, t: int, count: int)
    requires Ready(segments, located, t, count) && located != []
    requires CutAtAnchors(segments, Anchors(located, count), count)
    requires t <= segments[|segments| - 1].end < Window(t, count).end
    ensures var k := |segments| - 1;
            var split := SplitPoint(segments[k], t);
            var after := segments[..k] + [LeftHalf(segments[k], split),
                                          RightHalf(segments[k], split, Window(t, count).end, t)];
            CutAtAnchors(after, Anchors(located + [t], count), count)
  {
    hide GoodMerge, Anchors;
    var k := |segments| - 1;
    var anchors := Anchors(located, count);
    AnchorsOf(located, t, count);
    ReadyFacts(segments, located, t, count);
    FrontLocated(located, t, count);
    LastAnchor(located, count);
    assert CutAt(segments[k], anchors, k, count);
    AnchorInside(segments, located, t, count);
    var split := SplitPoint(segments[k], t);
    assert split == Max(anchors[k] + 1, t - LINES_BEFORE);
    CutsAdded(segments, LeftHalf(segments[k], split), RightHalf(segments[k], split, Window(t, count).end, t),
              anchors, t, count);
  }

  lemma AnchorInside(segments: seq<Proposal>, located: seq<int>, t: int, count: int)
    requires Ready(segments, located, t, count) && segments != []
    requires CutAtAnchors(segments, Anchors(located, count), count)
    ensures var last := segments[|segments| - 1];
            last.target.Some? && last.start <= last.target.value < t
  {
    hide Anchors, CutStart, CutEnd;
    var k := |segments| - 1;
    assert CutAt(segments[k], Anchors(located, count), k, count);
    assert segments[k].Carries(segments[k].target.value);
    assert CarriedBy(segments, segments[k].target.value);
    if located != [] { ReadyFacts(segments, located, t, count); }
  }

  lemma CollapseCuts(segments: seq<Proposal>, located: seq<int>, t: int, count: int)
    requires Ready(segments, located, t, count) && located != []
    requires CutAtAnchors(segments, Anchors(located, count), count)
    requires t <= segments[|segments| - 1].end == Window(t, count).end
    ensures var k := |segments| - 1;
            var after := segments[k := segments[k].(extra := segments[k].extra + {t})];
            CutAtAnchors(after, Anchors(located + [t], count), count)
  {
    hide GoodMerge, Anchors, CutStart, CutEnd;
    AnchorsOf(located, t, count);
    ReadyFacts(segments, located, t, count);
    var k := |segments| - 1;
    assert CutAt(segments[k], Anchors(located, count), k, count);
  }

  lemma MergeStepCuts(segments: seq<Proposal>, located: seq<int>, t: int, count: int)
    requires Ready(segments, located, t, count) && CutAtAnchors(segments, Anchors(located, count), count)
    ensures CutAtAnchors(MergeStep(segments, Window(t, count)), Anchors(located + [t], count), count)
  {
    hide Anchors, CutAtAnchors, MergeStep, CoveredEnd, NoTargetLost, SameLines;
    if located != [] && t <= segments[|segments| - 1].end {
      var last := segments[|segments| - 1];
      NewTarget(segments, located, t, count);
      CoveredEndIs(segments, located, t, count);
      ReadyFacts(segments, located, t, count);
      CarrierIsLast(segments, t, count);
      StepRepartitions(segments, Window(t, count), t);
      if last.end < Window(t, count).end {
        SplitCuts(segments, located, t, count);
      } else {
        CollapseCuts(segments, located, t, count);
      }
    } else {
      AppendCuts(segments, located, t, count);
    }
  }

  lemma NewTarget(segments: seq<Proposal>, located: seq<int>, t: int, count: int)
    requires Ready(segments, located, t, count) && located != []
    ensures !segments[|segments| - 1].Carries(t)
  {
    ReadyFacts(segments, located, t, count);
    assert segments[|segments| - 1].Carries(t) ==> CarriedBy(segments, t);
  }

  /**
   The exact cuts of the merge: for windows around any distinct ascending lines there is one
   segment for each anchor, in order, and it starts and ends where CutStart and CutEnd say.
   */
  lemma {:induction false} MergeAllCuts(located: seq<int>, count: int)
    requires Located(located, count)
    ensures CutAtAnchors(MergeAll(WindowsOf(located, count)), Anchors(located, count), count)
  {
    hide Anchors, CutAtAnchors, MergeStep, GoodMerge, LastAnchored;
    var windows := WindowsOf(located, count);
    if located == [] {
      NoAnchors(count);
      NothingCut(count);
    } else {
      var n := |located| - 1;
      var front, t := located[..n], located[n];
      assert located == front + [t];
      assert windows[..n] == WindowsOf(front, count) && windows[n] == Window(t, count);
      assert Located(front, count);
      MergeAllGood(front, count);
      MergeAllCuts(front, count);
      MergeStepCuts(MergeAll(windows[..n]), front, t, count);
    }
  }

  lemma NothingCut(count: int)
    ensures CutAtAnchors([], [], count)
  {
  }

  /** Together with the promises of MergeAllGood the cuts determine what every segment covers and carries. */
  lemma SegmentCarries(segments: seq<Proposal>, located: seq<int>, count: int, i: nat, line: int)
    requires GoodMerge(segments, located, count) && i < |segments|
    ensures segments[i].Carries(line) <==> line in located && segments[i].Covers(line)
  {
    if line in located && segments[i].Covers(line) {
      assert CarriedBy(segments, line);
      var j :| 0 <= j < |segments| && segments[j].Carries(line);
      assert segments[j].Covers(line);
    }
    if segments[i].Carries(line) { assert CarriedBy(segments, line); }
  }

  // ----- sorting, selection and the two methods -----

  predicate AtOrBefore(a: Proposal, b: Proposal) {
    a.start < b.start || (a.start == b.start && a.end <= b.end)
  }

  /** Stable insertion: equal keys keep their order. */
  function InsertProposal(sorted: seq<Proposal>, p: Proposal): seq<Proposal> {
    if sorted == [] || AtOrBefore(sorted[|sorted| - 1], p) then sorted + [p]
    else InsertProposal(sorted[..|sorted| - 1], p) + [sorted[|sorted| - 1]]
  }

  function SortProposals(proposals: seq<Proposal>): seq<Proposal> {
    if proposals == [] then []
    else InsertProposal(SortProposals(proposals[..|proposals| - 1]), proposals[|proposals| - 1])
  }

  /** By start, and by end among equal starts. */
  ghost predicate InOrder(proposals: seq<Proposal>) {
    forall i, j :: 0 <= i < j < |proposals| ==>
      && proposals[i].start <= proposals[j].start
      && (proposals[i].start == proposals[j].start ==> proposals[i].end <= proposals[j].end)
  }

  lemma {:induction false} InsertAdds(sorted: seq<Proposal>, p: Proposal)
    ensures multiset(InsertProposal(sorted, p)) == multiset(sorted) + multiset{p}
  {
    if sorted != [] {
      InsertAdds(sorted[..|sorted| - 1], p);
      assert sorted == sorted[..|sorted| - 1] + [sorted[|sorted| - 1]];
    }
  }

  lemma {:induction false} InsertInOrder(sorted: seq<Proposal>, p: Proposal)
    requires InOrder(sorted)
    ensures InOrder(InsertProposal(sorted, p))
  {
    if sorted != [] && !AtOrBefore(sorted[|sorted| - 1], p) {
      var n := |sorted| - 1;
      InsertInOrder(sorted[..n], p);
      InsertAdds(sorted[..n], p);
      AllBefore(sorted, p, InsertProposal(sorted[..n], p));
    }
  }

  lemma AllBefore(sorted: seq<Proposal>, p: Proposal, rest: seq<Proposal>)
    requires InOrder(sorted) && sorted != [] && !AtOrBefore(sorted[|sorted| - 1], p)
    requires multiset(rest) == multiset(sorted[..|sorted| - 1]) + multiset{p}
    ensures forall i :: 0 <= i < |rest| ==> AtOrBefore(rest[i], sorted[|sorted| - 1])
  {
    var n := |sorted| - 1;
    forall i | 0 <= i < |rest| ensures AtOrBefore(rest[i], sorted[n]) {
      assert rest[i] in multiset(rest);
      if rest[i] != p {
        assert rest[i] in sorted[..n];
        var j :| 0 <= j < n && sorted[..n][j] == rest[i];
        assert sorted[j] == rest[i];
      }
    }
  }

  /** The merge sees the very windows selected, in order. */
  lemma {:induction false} SortSorts(proposals: seq<Proposal>)
    ensures InOrder(SortProposals(proposals)) && multiset(SortProposals(proposals)) == multiset(proposals)
  {
    if proposals != [] {
      var n := |proposals| - 1;
      SortSorts(proposals[..n]);
      InsertInOrder(SortProposals(proposals[..n]), proposals[n]);
      InsertAdds(SortProposals(proposals[..n]), proposals[n]);
      assert proposals == proposals[..n] + [proposals[n]];
    }
  }

  lemma {:induction false} SortOfSorted(proposals: seq<Proposal>)
    requires forall i :: 0 < i < |proposals| ==> AtOrBefore(proposals[i - 1], proposals[i])
    ensures SortProposals(proposals) == proposals
  {
    if proposals != [] {
      var n := |proposals| - 1;
      SortOfSorted(proposals[..n]);
      assert proposals == proposals[..n] + [proposals[n]];
    }
  }

  /** The members of a line set in [lo, hi], ascending: Python's `sorted(set)`. */
  function LinesIn(lines: set<int>, lo: int, hi: int): (r: seq<int>)
    ensures Ascending(r) && |r| <= Max(0, hi - lo + 1)
    ensures forall i :: 0 <= i < |r| ==> lo <= r[i] <= hi && r[i] in lines
    decreases hi - lo
  {
    if lo > hi then []
    else if lo in lines then [lo] + LinesIn(lines, lo + 1, hi)
    else LinesIn(lines, lo + 1, hi)
  }

  lemma {:induction false} LinesInComplete(lines: set<int>, lo: int, hi: int, x: int)
    requires x in lines && lo <= x <= hi
    ensures x in LinesIn(lines, lo, hi)
    decreases hi - lo
  {
    if x == lo {
      assert LinesIn(lines, lo, hi)[0] == lo;
    } else {
      LinesInComplete(lines, lo + 1, hi, x);
    }
  }

  lemma {:induction false} LinesInSize(lines: set<int>, lo: int, hi: int)
    ensures |LinesIn(lines, lo, hi)| <= |lines|
    decreases hi - lo
  {
    if lo <= hi {
      if lo in lines {
        LinesInSize(lines - {lo}, lo + 1, hi);
        LinesInIgnores(lines, lo + 1, hi, lo);
      } else {
        LinesInSize(lines, lo + 1, hi);
      }
    }
  }

  lemma {:induction false} LinesInIgnores(lines: set<int>, lo: int, hi: int, x: int)
    requires x < lo
    ensures LinesIn(lines - {x}, lo, hi) == LinesIn(lines, lo, hi)
    decreases hi - lo
  {
    if lo <= hi { LinesInIgnores(lines, lo + 1, hi, x); }
  }

  /** Distinct located lines, ascending, at most MAX_PROPOSALS of them. */
  function ChosenLines(found: set<int>, count: int): seq<int> {
    var located := LinesIn(found, 1, count);
    if |located| <= MAX_PROPOSALS then located else located[..MAX_PROPOSALS]
  }

  function SelectedWindows(found: set<int>, count: int): seq<Proposal> {
    if count <= 0 then []
    else if ChosenLines(found, count) == [] then [Proposal(1, Min(count, MAX_WINDOW), None, {})]
    else WindowsOf(ChosenLines(found, count), count)
  }

  /** The coverage spans of one file: selection, sort and merge together. */
  function FileSpans(found: set<int>, count: int): seq<Proposal> {
    MergeAll(SortProposals(SelectedWindows(found, count)))
  }

  /** Sixteen located lines never overflow the proposal bound, so none is cut off. */
  lemma EveryFoundLineChosen(found: set<int>, count: int)
    requires |found| <= MAX_PROPOSALS && forall line :: line in found ==> 1 <= line <= count
    ensures forall line :: line in found <==> line in ChosenLines(found, count)
  {
    LinesInSize(found, 1, count);
    forall line | line in found
      ensures line in ChosenLines(found, count)
    {
      LinesInComplete(found, 1, count, line);
    }
  }

  lemma WindowSpansGood(located: seq<int>, count: int)
    requires Located(located, count)
    ensures GoodMerge(MergeAll(SortProposals(WindowsOf(located, count))), located, count)
    ensures located != [] ==> MergeAll(SortProposals(WindowsOf(located, count))) != []
  {
    var windows := WindowsOf(located, count);
    assert forall i :: 0 < i < |windows| ==> located[i - 1] < located[i] && AtOrBefore(windows[i - 1], windows[i]);
    SortOfSorted(windows);
    MergeAllGood(located, count);
  }

  /** The whole promise of selection plus merge, for every set of found lines and every file length. */
  lemma FileSpansGood(found: set<int>, count: int)
    requires 0 < count
    ensures var spans := FileSpans(found, count);
            && spans != []
            && Disjoint(spans, count) && TargetsInside(spans)
            && NoTargetLost(spans, ChosenLines(found, count))
            && SameLines(spans, SelectedWindows(found, count))
  {
    var located := ChosenLines(found, count);
    if located == [] {
      FallbackSpan(Proposal(1, Min(count, MAX_WINDOW), None, {}));
    } else {
      WindowSpansGood(located, count);
    }
  }

  /** With a located line the spans of a file are cut at the anchors of the chosen lines. */
  lemma FileSpansCut(found: set<int>, count: int)
    requires 0 < count && ChosenLines(found, count) != []
    ensures CutAtAnchors(FileSpans(found, count), Anchors(ChosenLines(found, count), count), count)
  {
    hide CutAtAnchors, MergeAll, ChosenLines;
    var located := ChosenLines(found, count);
    var windows := WindowsOf(located, count);
    ChosenLocated(found, count);
    assert forall i :: 0 < i < |windows| ==> located[i - 1] < located[i] && AtOrBefore(windows[i - 1], windows[i]);
    SortOfSorted(windows);
    MergeAllCuts(located, count);
  }

  /** A file without lines has no window. */
  lemma NoLinesNoSpans(found: set<int>)
    ensures SelectedWindows(found, 0) == [] && FileSpans(found, 0) == []
  {
  }

  lemma ChosenLocated(found: set<int>, count: int)
    ensures Located(ChosenLines(found, count), count)
  {
  }

  /** The chosen lines are found lines, and a found line of the file is passed over only for sixteen smaller ones. */
  lemma ChosenAreFirst(found: set<int>, count: int, line: int)
    requires line in found && 1 <= line <= count && line !in ChosenLines(found, count)
    ensures |ChosenLines(found, count)| == 16
    ensures forall i :: 0 <= i < 16 ==> ChosenLines(found, count)[i] in found && ChosenLines(found, count)[i] < line
  {
    LinesInComplete(found, 1, count, line);
    var all := LinesIn(found, 1, count);
    var k :| 0 <= k < |all| && all[k] == line;
    if |all| > MAX_PROPOSALS { AmongFirst(all); }
  }

  lemma AmongFirst(all: seq<int>)
    requires |all| > MAX_PROPOSALS
    ensures forall k :: 0 <= k < MAX_PROPOSALS ==> all[k] in all[..MAX_PROPOSALS]
  {
    assert forall k :: 0 <= k < MAX_PROPOSALS ==> all[..MAX_PROPOSALS][k] == all[k];
  }

  /** The lines shown for a located line: from twenty above it, or the first, eighty lines as far as the file goes. */
  predicate AroundLine(line: int, x: int, count: int) {
    var first := if line <= 20 then 1 else line - 20;
    first <= x < first + 80 && x <= count
  }

  /** The spans of a file cover exactly the lines around the chosen ones, or the first eighty when there are none. */
  lemma FileSpansCover(found: set<int>, count: int, x: int)
    requires 0 < count
    ensures CoveredBy(FileSpans(found, count), x) <==>
              if ChosenLines(found, count) == [] then 1 <= x <= 80 && x <= count
              else var chosen := ChosenLines(found, count);
                   exists i :: 0 <= i < |chosen| && AroundLine(chosen[i], x, count)
  {
    hide FileSpans, ChosenLines, Disjoint, NoTargetLost;
    FileSpansGood(found, count);
    var located := ChosenLines(found, count);
    if located == [] {
      CoveredByOne(Proposal(1, Min(count, MAX_WINDOW), None, {}), x);
    } else {
      ChosenLocated(found, count);
      WindowsCover(located, count, x);
    }
  }

  lemma WindowsCover(located: seq<int>, count: int, x: int)
    ensures CoveredBy(WindowsOf(located, count), x) <==>
              exists i :: 0 <= i < |located| && AroundLine(located[i], x, count)
  {
    var windows := WindowsOf(located, count);
    assert forall i :: 0 <= i < |located| ==> (windows[i].Covers(x) <==> AroundLine(located[i], x, count));
  }

  /** Without a located line the single prefix window is the only span. */
  lemma FallbackSpan(p: Proposal)
    requires p.start == 1 <= p.end && p.target == None && p.extra == {}
    ensures MergeAll(SortProposals([p])) == [p]
  {
  }

  /** The distinct lines among the results of a symbol search. */
  ghost function LocatedLines(found: seq<Option<int>>): set<int> {
    set i | 0 <= i < |found| && found[i].Some? :: found[i].value
  }

  lemma NothingLocated()
    ensures LocatedLines([]) == {}
  {
  }

  lemma LocatedGrows(found: seq<Option<int>>, line: Option<int>)
    ensures LocatedLines(found + [line]) == LocatedLines(found) + (if line.Some? then {line.value} else {})
  {
    var grown := found + [line];
    assert grown[|found|] == line;
    assert forall j :: 0 <= j < |found| ==> grown[j] == found[j];
  }

  method SelectWindows(count: nat, found: seq<Option<int>>) returns (proposals: seq<Proposal>)
    ensures proposals == SelectedWindows(LocatedLines(found), count)
  {
    if count == 0 { return []; }
    var lines: set<int> := {};
    for i := 0 to |found|
      invariant lines == LocatedLines(found[..i])
    {
      LocatedGrows(found[..i], found[i]);
      assert found[..i + 1] == found[..i] + [found[i]];
      if found[i].Some? { lines := lines + {found[i].value}; }
    }
    assert found[..|found|] == found;
    var located := LinesIn(lines, 1, count);
    if |located| > MAX_PROPOSALS { located := located[..MAX_PROPOSALS]; }
    proposals := [];
    for i := 0 to |located|
      invariant |proposals| == i
      invariant forall j :: 0 <= j < i ==> proposals[j] == Window(located[j], count)
    {
      var line := located[i];
      var start := Max(1, line - LINES_BEFORE);
      var end := Min(count, start + MAX_WINDOW - 1);
      proposals := proposals + [Proposal(start, end, Some(line), {})];
    }
    assert proposals == WindowsOf(located, count);
    if proposals == [] {
      proposals := [Proposal(1, Min(count, MAX_WINDOW), None, {})];
    }
  }

  method CoverageEnd(segments: seq<Proposal>, start: int) returns (covered: int)
    ensures covered == CoveredEnd(segments, start - 1)
  {
    covered := start - 1;
    var progressed := true;
    while progressed
      invariant CoveredEnd(segments, covered) == CoveredEnd(segments, start - 1)
      invariant !progressed ==> CoverPass(segments, covered) == covered
      decreases Max(covered, MaxEnd(segments)) - covered, if progressed then 1 else 0
    {
      progressed := false;
      ghost var before := covered;
      for i := 0 to |segments|
        invariant before <= covered && (progressed <==> before < covered)
        invariant CoverPass(segments[i..], covered) == CoverPass(segments, before)
      {
        assert segments[i..][1..] == segments[i + 1..];
        if segments[i].start <= covered + 1 && segments[i].end > covered {
          covered := segments[i].end;
          progressed := true;
        }
      }
    }
  }

  method FindCarrier(segments: seq<Proposal>, line: int) returns (index: nat)
    ensures index == FirstContaining(segments, line)
  {
    index := 0;
    while index < |segments| && !(segments[index].start <= line <= segments[index].end)
      invariant index <= |segments|
      invariant FirstContaining(segments, line) == index + FirstContaining(segments[index..], line)
    {
      assert segments[index..][1..] == segments[index + 1..];
      index := index + 1;
    }
  }

  /** The body of the merge loop: one proposal against the segments emitted so far. */
  method MergeOne(segments: seq<Proposal>, proposal: Proposal) returns (normalized: seq<Proposal>)
    ensures normalized == MergeStep(segments, proposal)
  {
    var covered := CoverageEnd(segments, proposal.start);
    var target := proposal.target;
    if target.Some? && target.value < covered + 1 {
      var t := target.value;
      var index := FindCarrier(segments, t);
      if index < |segments| {
        var carrier := segments[index];
        if t > carrier.start && target != carrier.target && (covered < proposal.end || proposal.end < carrier.end) {
          var split := Max(carrier.start + 1, t - LINES_BEFORE);
          if carrier.target.Some? && carrier.target.value >= split {
            split := Min(carrier.target.value + 1, t);
          }
          var rightEnd := if covered < proposal.end then proposal.end else carrier.end;
          var carriedRight := (set a | a in carrier.extra && a >= split) + {t};
          if carrier.target.Some? && carrier.target.value >= split {
            carriedRight := carriedRight + {carrier.target.value};
          }
          assert carriedRight == RightHalf(carrier, split, rightEnd, t).extra;
          return segments[..index] + [LeftHalf(carrier, split), Proposal(split, rightEnd, target, carriedRight)] +
                 segments[index + 1..];
        }
        if covered >= proposal.end && target != carrier.target && t !in carrier.extra {
          return segments[index := Proposal(carrier.start, carrier.end, carrier.target, carrier.extra + {t})];
        }
      }
    }
    if covered >= proposal.end { return segments; }
    if target.Some? && target.value < covered + 1 { target := None; }
    return segments + [Proposal(covered + 1, proposal.end, target, {})];
  }

  method MergeProposals(proposals: seq<Proposal>) returns (normalized: seq<Proposal>)
    ensures normalized == MergeAll(SortProposals(proposals))
  {
    var ordered := SortProposals(proposals);
    normalized := [];
    for n := 0 to |ordered|
      invariant normalized == MergeAll(ordered[..n])
    {
      assert ordered[..n + 1][..n] == ordered[..n];
      normalized := MergeOne(normalized, ordered[n]);
    }
    assert ordered[..|ordered|] == ordered;
  }
}
