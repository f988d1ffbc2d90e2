/** Shrinking a coverage span to whole lines under a byte capacity (context.py: _fit_span). */
module SpanFitting {
  import opened Prelude
  import opened SourceLines
  import opened Utf8
  import opened Windows

  /** prefix[k] is the UTF-8 size of the first k lines. */
  function LinePrefix(lines: seq<string>): (prefix: seq<int>)
    ensures |prefix| == |lines| + 1
  {
    if lines == [] then [0]
    else
      var front := LinePrefix(lines[..|lines| - 1]);
      front + [front[|front| - 1] + |Encode(lines[|lines| - 1])|]
  }

  method LineBytePrefix(lines: seq<string>) returns (prefix: seq<int>)
    ensures prefix == LinePrefix(lines)
  {
    prefix := [0];
    var running := 0;
    for i := 0 to |lines|
      invariant prefix == LinePrefix(lines[..i]) && prefix[i] == running
    {
      assert lines[..i + 1][..i] == lines[..i];
      running := running + |Encode(lines[i])|;
      prefix := prefix + [running];
    }
    assert lines[..|lines|] == lines;
  }

  lemma {:induction false} PrefixIsBytes(lines: seq<string>, k: nat)
    requires k <= |lines|
    ensures LinePrefix(lines)[k] == |Encode(Join(lines[..k]))|
  {
    if lines == [] {
    } else if k < |lines| {
      var front := lines[..|lines| - 1];
      assert front[..k] == lines[..k];
      PrefixIsBytes(front, k);
    } else {
      var front, last := lines[..k - 1], lines[k - 1];
      PrefixIsBytes(front, k - 1);
      assert front[..k - 1] == front && lines[..k] == front + [last] && Join([last]) == last;
      JoinAppend(front, [last]);
      EncodeConcat(Join(front), last);
    }
  }

  /** The bytes between two prefix entries are the UTF-8 size of exactly those lines. */
  lemma SliceBytes(lines: seq<string>, lo: int, hi: int)
    requires 1 <= lo <= hi + 1 <= |lines| + 1
    ensures Bytes(LinePrefix(lines), lo, hi) == |Encode(Join(lines[lo - 1..hi]))|
  {
    hide Encode, Join;
    PrefixIsBytes(lines, lo - 1);
    PrefixIsBytes(lines, hi);
    assert lines[..hi] == lines[..lo - 1] + lines[lo - 1..hi];
    JoinAppend(lines[..lo - 1], lines[lo - 1..hi]);
    EncodeConcat(Join(lines[..lo - 1]), Join(lines[lo - 1..hi]));
  }

  lemma PrefixRises(lines: seq<string>)
    requires forall i :: 0 <= i < |lines| ==> lines[i] != ""
    ensures Rising(LinePrefix(lines))
  {
    hide LinePrefix, Encode;
    var prefix := LinePrefix(lines);
    forall i | 0 < i < |prefix|
      ensures prefix[i - 1] < prefix[i]
    {
      SliceBytes(lines, i, i);
      assert lines[i - 1..i] == [lines[i - 1]] && Join([lines[i - 1]]) == lines[i - 1];
      EncodeLength(lines[i - 1]);
    }
  }

  /** Every line costs at least one byte. */
  ghost predicate Rising(prefix: seq<int>) {
    forall i :: 0 < i < |prefix| ==> prefix[i - 1] < prefix[i]
  }

  ghost predicate InFile(span: Proposal, prefix: seq<int>) {
    1 <= span.start <= span.end < |prefix|
  }

  /** UTF-8 size of lines lo..hi. */
  function Bytes(prefix: seq<int>, lo: int, hi: int): int
    requires 1 <= lo <= hi + 1 <= |prefix|
  {
    prefix[hi] - prefix[lo - 1]
  }

  /** Lines taken from `line` on while they fit beside the `used` bytes before them. */
  function TakeLines(prefix: seq<int>, line: int, end: int, used: int, capacity: int): (r: nat)
    requires 1 <= line <= end + 1 <= |prefix|
    ensures r <= end + 1 - line
    decreases end - line
  {
    if line > end || used + Bytes(prefix, line, line) > capacity then 0
    else 1 + TakeLines(prefix, line + 1, end, used + Bytes(prefix, line, line), capacity)
  }

  /** The targets a span carries, as far as they lie inside it, ascending. */
  function Anchors(span: Proposal): seq<int>
    requires span.target.Some?
  {
    LinesIn(span.extra + {span.target.value}, span.start, span.end)
  }

  function Primary(span: Proposal): int
    requires span.target.Some?
  {
    Min(Max(span.target.value, span.start), span.end)
  }

  /** One round tries the next later line, then the next earlier line, until neither fits. */
  function Expand(span: Proposal, prefix: seq<int>, capacity: int, low: int, high: int): (r: (int, int))
    requires InFile(span, prefix) && span.start <= low <= high <= span.end
    ensures span.start <= r.0 <= low && high <= r.1 <= span.end
    decreases span.end - high + low - span.start
  {
    var high' := if high < span.end && Bytes(prefix, low, high + 1) <= capacity then high + 1 else high;
    var low' := if low > span.start && Bytes(prefix, low - 1, high') <= capacity then low - 1 else low;
    if low' == low && high' == high then (low, high) else Expand(span, prefix, capacity, low', high')
  }

  function Fitted(span: Proposal, prefix: seq<int>, capacity: int): Option<(int, int)>
    requires InFile(span, prefix)
  {
    if Bytes(prefix, span.start, span.end) <= capacity then Some((span.start, span.end))
    else if span.target.None? then
      var taken := TakeLines(prefix, span.start, span.end, 0, capacity);
      if taken == 0 then None else Some((span.start, span.start + taken - 1))
    else
      var anchors := Anchors(span);
      var primary := Primary(span);
      var low := if anchors == [] then primary else anchors[0];
      var high := if anchors == [] then primary else anchors[|anchors| - 1];
      if Bytes(prefix, low, high) <= capacity then Some(Expand(span, prefix, capacity, low, high))
      else if Bytes(prefix, primary, primary) <= capacity then Some(Expand(span, prefix, capacity, primary, primary))
      else None
  }

  // ----- what fitting promises -----

  ghost predicate FitsInside(span: Proposal, prefix: seq<int>, capacity: int, lo: int, hi: int) {
    && InFile(span, prefix)
    && span.start <= lo <= hi <= span.end
    && Bytes(prefix, lo, hi) <= capacity
  }

  /** Neither neighbouring line of the span could still be added. */
  ghost predicate Maximal(span: Proposal, prefix: seq<int>, capacity: int, lo: int, hi: int)
    requires FitsInside(span, prefix, capacity, lo, hi)
  {
    && (hi < span.end ==> Bytes(prefix, lo, hi + 1) > capacity)
    && (lo > span.start ==> span.target.Some? ==> Bytes(prefix, lo - 1, hi) > capacity)
    && (span.target.None? ==> lo == span.start)
  }

  /** All carried targets together with the lines between them fit. */
  ghost predicate HullFits(span: Proposal, prefix: seq<int>, capacity: int) {
    exists lo, hi ::
      && FitsInside(span, prefix, capacity, lo, hi)
      && forall line :: span.Carries(line) && span.Covers(line) ==> lo <= line <= hi
  }

  lemma {:induction false} RisingBetween(prefix: seq<int>, i: int, j: int)
    requires Rising(prefix) && 0 <= i <= j < |prefix|
    ensures prefix[i] <= prefix[j] && (i < j ==> prefix[i] < prefix[j])
    decreases j - i
  {
    if i < j {
      RisingBetween(prefix, i, j - 1);
      assert prefix[j - 1] < prefix[j];
    }
  }

  lemma {:induction false} TakeLinesGood(prefix: seq<int>, first: int, line: int, end: int, capacity: int)
    requires 1 <= first <= line <= end + 1 <= |prefix|
    ensures var last := line - 1 + TakeLines(prefix, line, end, Bytes(prefix, first, line - 1), capacity);
            && (last < end ==> Bytes(prefix, first, last + 1) > capacity)
            && (last >= line ==> Bytes(prefix, first, last) <= capacity)
    decreases end - line
  {
    var used := Bytes(prefix, first, line - 1);
    if line <= end && used + Bytes(prefix, line, line) <= capacity {
      assert Bytes(prefix, first, line) == used + Bytes(prefix, line, line);
      TakeLinesGood(prefix, first, line + 1, end, capacity);
    }
  }

  lemma {:induction false} ExpandGood(span: Proposal, prefix: seq<int>, capacity: int, low: int, high: int)
    requires InFile(span, prefix) && span.target.Some?
    requires FitsInside(span, prefix, capacity, low, high)
    ensures var (lo, hi) := Expand(span, prefix, capacity, low, high);
            FitsInside(span, prefix, capacity, lo, hi) && Maximal(span, prefix, capacity, lo, hi)
    decreases span.end - high + low - span.start
  {
    var high' := if high < span.end && Bytes(prefix, low, high + 1) <= capacity then high + 1 else high;
    var low' := if low > span.start && Bytes(prefix, low - 1, high') <= capacity then low - 1 else low;
    if low' == low && high' == high {
    } else {
      ExpandGood(span, prefix, capacity, low', high');
    }
  }

  /** The anchors are exactly the carried lines of the span; first and last bound them. */
  lemma AnchorsBound(span: Proposal)
    requires span.target.Some?
    ensures var anchors := Anchors(span);
            && (forall line :: span.Carries(line) && span.Covers(line) ==>
                  anchors != [] && anchors[0] <= line <= anchors[|anchors| - 1])
            && (anchors != [] ==> && span.Carries(anchors[0]) && span.Covers(anchors[0])
                                  && span.Carries(anchors[|anchors| - 1]) && span.Covers(anchors[|anchors| - 1]))
  {
    var anchors := Anchors(span);
    forall line | span.Carries(line) && span.Covers(line)
      ensures anchors != [] && anchors[0] <= line <= anchors[|anchors| - 1]
    {
      LinesInComplete(span.extra + {span.target.value}, span.start, span.end, line);
      var i :| 0 <= i < |anchors| && anchors[i] == line;
    }
  }

  /** A fitted range stays inside the span and the capacity and cannot grow by a line. */
  lemma FittedInside(span: Proposal, prefix: seq<int>, capacity: int)
    requires InFile(span, prefix)
    requires Fitted(span, prefix, capacity).Some?
    ensures var (lo, hi) := Fitted(span, prefix, capacity).value;
            FitsInside(span, prefix, capacity, lo, hi) && Maximal(span, prefix, capacity, lo, hi)
  {
    if Bytes(prefix, span.start, span.end) <= capacity {
    } else if span.target.None? {
      TakeLinesGood(prefix, span.start, span.start, span.end, capacity);
    } else {
      var anchors, primary := Anchors(span), Primary(span);
      AnchorsBound(span);
      var low := if anchors == [] then primary else anchors[0];
      var high := if anchors == [] then primary else anchors[|anchors| - 1];
      if Bytes(prefix, low, high) <= capacity {
        ExpandGood(span, prefix, capacity, low, high);
      } else {
        ExpandGood(span, prefix, capacity, primary, primary);
      }
    }
  }

  /** The primary target is never given up, and no carried target is when all of them fit together. */
  lemma FittedKeepsTargets(span: Proposal, prefix: seq<int>, capacity: int)
    requires InFile(span, prefix) && Rising(prefix)
    requires span.target.Some? && span.Covers(span.target.value)
    requires Fitted(span, prefix, capacity).Some?
    ensures var (lo, hi) := Fitted(span, prefix, capacity).value;
            && lo <= span.target.value <= hi
            && (HullFits(span, prefix, capacity) ==>
                  forall line :: span.Carries(line) && span.Covers(line) ==> lo <= line <= hi)
  {
    var anchors := Anchors(span);
    AnchorsBound(span);
    assert span.Carries(span.target.value);
    var low, high := anchors[0], anchors[|anchors| - 1];
    if HullFits(span, prefix, capacity) {
      var l, h :| FitsInside(span, prefix, capacity, l, h) &&
                  forall line :: span.Carries(line) && span.Covers(line) ==> l <= line <= h;
      RisingBetween(prefix, l - 1, low - 1);
      RisingBetween(prefix, high, h);
      assert Bytes(prefix, low, high) <= capacity;
    }
  }

  /** Nothing is fitted exactly when the one indispensable line is too big. */
  lemma FittedNone(span: Proposal, prefix: seq<int>, capacity: int)
    requires InFile(span, prefix) && Rising(prefix)
    requires span.target.Some? ==> span.Covers(span.target.value)
    ensures var line := if span.target.Some? then span.target.value else span.start;
            Fitted(span, prefix, capacity).None? <==> Bytes(prefix, line, line) > capacity
  {
    var line := if span.target.Some? then span.target.value else span.start;
    RisingBetween(prefix, span.start - 1, line - 1);
    RisingBetween(prefix, line, span.end);
    if span.target.Some? {
      AnchorsBound(span);
      assert span.Carries(line);
      var anchors := Anchors(span);
      RisingBetween(prefix, anchors[0] - 1, line - 1);
      RisingBetween(prefix, line, anchors[|anchors| - 1]);
    }
  }

  // ----- the order of growth -----

  /**
   Growth from low..high to lo..hi took the two sides in turn, a later line first: the side with
   fewer lines had reached its end of the span, or its next line no longer fitted in its turn.
   */
  ghost predicate InTurns(span: Proposal, prefix: seq<int>, capacity: int, low: int, high: int, lo: int, hi: int)
    requires InFile(span, prefix) && span.start <= lo <= low <= high <= hi <= span.end
  {
    var later, earlier := hi - high, low - lo;
    && (later > earlier ==> lo == span.start || Bytes(prefix, lo - 1, high + earlier + 1) > capacity)
    && (earlier >= later ==> hi == span.end || Bytes(prefix, low - later, hi + 1) > capacity)
  }

  ghost predicate Grown(span: Proposal, prefix: seq<int>, capacity: int, low: int, high: int, lo: int, hi: int)
    requires InFile(span, prefix)
  {
    && lo <= low <= high <= hi && FitsInside(span, prefix, capacity, lo, hi)
    && (hi < span.end ==> Bytes(prefix, lo, hi + 1) > capacity)
    && (lo > span.start ==> Bytes(prefix, lo - 1, hi) > capacity)
    && InTurns(span, prefix, capacity, low, high, lo, hi)
  }

  lemma WiderCostsMore(prefix: seq<int>, lo: int, hi: int, low: int, high: int)
    requires Rising(prefix) && 1 <= lo <= low <= high + 1 <= hi + 1 <= |prefix|
    ensures Bytes(prefix, low, high) <= Bytes(prefix, lo, hi)
  {
    RisingBetween(prefix, lo - 1, low - 1);
    RisingBetween(prefix, high, hi);
  }

  /** One round of growth adds a later line exactly when the result has one, and an earlier line likewise. */
  lemma RoundDecided(span: Proposal, prefix: seq<int>, capacity: int, low: int, high: int, lo: int, hi: int)
    requires InFile(span, prefix) && Rising(prefix) && Grown(span, prefix, capacity, low, high, lo, hi)
    ensures high < hi <==> high < span.end && Bytes(prefix, low, high + 1) <= capacity
    ensures var high' := if high < hi then high + 1 else high;
            lo < low <==> low > span.start && Bytes(prefix, low - 1, high') <= capacity
  {
    if high < hi { WiderCostsMore(prefix, lo, hi, low, high + 1); }
    if lo < low { WiderCostsMore(prefix, lo, hi, low - 1, if high < hi then high + 1 else high); }
  }

  lemma RoundKeeps(span: Proposal, prefix: seq<int>, capacity: int, low: int, high: int, lo: int, hi: int)
    requires InFile(span, prefix) && Rising(prefix) && Grown(span, prefix, capacity, low, high, lo, hi)
    requires lo < low || high < hi
    ensures Grown(span, prefix, capacity, if lo < low then low - 1 else low, if high < hi then high + 1 else high,
                  lo, hi)
  {
    if lo == low && high + 1 < hi && lo > span.start { WiderCostsMore(prefix, lo - 1, high + 2, lo - 1, high + 1); }
    if high == hi && lo < low && hi < span.end { WiderCostsMore(prefix, low - 1, hi + 1, low, hi + 1); }
  }

  /** The growth in turns has one result, the one that the rounds reach. */
  lemma {:induction false} GrownIsExpand(span: Proposal, prefix: seq<int>, capacity: int, low: int, high: int, lo: int,
        hi: int)
    requires InFile(span, prefix) && Rising(prefix) && Grown(span, prefix, capacity, low, high, lo, hi)
    ensures Expand(span, prefix, capacity, low, high) == (lo, hi)
    decreases span.end - high + low - span.start
  {
    hide Grown, Rising;
    GrownInside(span, prefix, capacity, low, high, lo, hi);
    RoundDecided(span, prefix, capacity, low, high, lo, hi);
    if lo < low || high < hi {
      RoundKeeps(span, prefix, capacity, low, high, lo, hi);
      GrownIsExpand(span, prefix, capacity, if lo < low then low - 1 else low, if high < hi then high + 1 else high,
                    lo, hi);
    }
  }

  lemma GrownInside(span: Proposal, prefix: seq<int>, capacity: int, low: int, high: int, lo: int, hi: int)
    requires InFile(span, prefix) && Grown(span, prefix, capacity, low, high, lo, hi)
    ensures span.start <= lo <= low <= high <= hi <= span.end
  {
  }

  /** The lines and bounds of one round, read from the state before it. */
  ghost predicate Round(span: Proposal, prefix: seq<int>, capacity: int, low: int, high: int, low': int, high': int)
    requires InFile(span, prefix) && span.start <= low <= high <= span.end
  {
    && high' == (if high < span.end && Bytes(prefix, low, high + 1) <= capacity then high + 1 else high)
    && low' == (if low > span.start && Bytes(prefix, low - 1, high') <= capacity then low - 1 else low)
  }

  /** A side that a round did not move is not moved later. */
  lemma StoppedSide(span: Proposal, prefix: seq<int>, capacity: int, low: int, high: int, low': int, high': int,
        lo: int, hi: int)
    requires InFile(span, prefix) && Rising(prefix) && span.start <= low <= high <= span.end
    requires Round(span, prefix, capacity, low, high, low', high')
    requires lo <= low' && high' <= hi && FitsInside(span, prefix, capacity, lo, hi)
    ensures (low' == low ==> lo == low) && (high' == high ==> hi == high)
  {
    if low' == low && lo < low { WiderCostsMore(prefix, lo, hi, low - 1, high'); }
    if high' == high && high < hi { WiderCostsMore(prefix, lo, hi, low, high + 1); }
  }

  lemma RoundBefore(span: Proposal, prefix: seq<int>, capacity: int, low: int, high: int, low': int, high': int,
        lo: int, hi: int)
    requires InFile(span, prefix) && Rising(prefix) && span.start <= low <= high <= span.end
    requires Round(span, prefix, capacity, low, high, low', high')
    requires Grown(span, prefix, capacity, low', high', lo, hi)
    ensures Grown(span, prefix, capacity, low, high, lo, hi)
  {
    hide Rising;
    StoppedSide(span, prefix, capacity, low, high, low', high', lo, hi);
  }

  /** Growth is in turns. */
  lemma {:induction false} ExpandInTurns(span: Proposal, prefix: seq<int>, capacity: int, low: int, high: int)
    requires InFile(span, prefix) && Rising(prefix) && FitsInside(span, prefix, capacity, low, high)
    ensures var (lo, hi) := Expand(span, prefix, capacity, low, high);
            Grown(span, prefix, capacity, low, high, lo, hi)
    decreases span.end - high + low - span.start
  {
    hide Rising, Grown;
    var high' := if high < span.end && Bytes(prefix, low, high + 1) <= capacity then high + 1 else high;
    var low' := if low > span.start && Bytes(prefix, low - 1, high') <= capacity then low - 1 else low;
    if low' == low && high' == high {
      NoRoundGrown(span, prefix, capacity, low, high);
    } else {
      ExpandInTurns(span, prefix, capacity, low', high');
      var (lo, hi) := Expand(span, prefix, capacity, low', high');
      RoundBefore(span, prefix, capacity, low, high, low', high', lo, hi);
    }
  }

  lemma NoRoundGrown(span: Proposal, prefix: seq<int>, capacity: int, low: int, high: int)
    requires InFile(span, prefix) && FitsInside(span, prefix, capacity, low, high)
    requires Round(span, prefix, capacity, low, high, low, high)
    ensures Grown(span, prefix, capacity, low, high, low, high)
  {
  }

  /**
   What a fit grows from when the whole span does not fit: all carried targets with the lines
   between them when they fit together, else the primary target alone.
   */
  ghost predicate FitBase(span: Proposal, prefix: seq<int>, capacity: int, low: int, high: int)
    requires InFile(span, prefix)
  {
    && FitsInside(span, prefix, capacity, low, high)
    && if HullFits(span, prefix, capacity) then
         && span.Carries(low) && span.Carries(high)
         && forall line :: span.Carries(line) && span.Covers(line) ==> low <= line <= high
       else span.target == Some(low) && low == high
  }

  /** A fit with a target is exactly its base grown in turns. */
  lemma FittedIs(span: Proposal, prefix: seq<int>, capacity: int, low: int, high: int, lo: int, hi: int)
    requires InFile(span, prefix) && Rising(prefix) && Bytes(prefix, span.start, span.end) > capacity
    requires span.target.Some? && span.Covers(span.target.value) && FitBase(span, prefix, capacity, low, high)
    ensures Fitted(span, prefix, capacity) == Some((lo, hi)) <==> Grown(span, prefix, capacity, low, high, lo, hi)
  {
    hide Grown, Expand, Rising;
    BaseIs(span, prefix, capacity, low, high);
    ExpandInTurns(span, prefix, capacity, low, high);
    if Grown(span, prefix, capacity, low, high, lo, hi) {
      GrownIsExpand(span, prefix, capacity, low, high, lo, hi);
    }
  }

  lemma BaseIs(span: Proposal, prefix: seq<int>, capacity: int, low: int, high: int)
    requires InFile(span, prefix) && Rising(prefix) && Bytes(prefix, span.start, span.end) > capacity
    requires span.target.Some? && span.Covers(span.target.value) && FitBase(span, prefix, capacity, low, high)
    ensures Fitted(span, prefix, capacity) == Some(Expand(span, prefix, capacity, low, high))
  {
    hide Expand, Rising, HullFits, FitsInside;
    var anchors := Anchors(span);
    AnchorsBound(span);
    assert span.Carries(span.target.value);
    HullIsAnchors(span, prefix, capacity);
    assert low <= high && Bytes(prefix, low, high) <= capacity by { InsideFits(span, prefix, capacity, low, high); }
    if HullFits(span, prefix, capacity) {
      assert span.Covers(low) && span.Covers(high) by { InsideFits(span, prefix, capacity, low, high); }
    }
  }

  lemma InsideFits(span: Proposal, prefix: seq<int>, capacity: int, low: int, high: int)
    requires FitsInside(span, prefix, capacity, low, high)
    ensures span.start <= low <= high <= span.end && Bytes(prefix, low, high) <= capacity
  {
  }

  lemma HullIsAnchors(span: Proposal, prefix: seq<int>, capacity: int)
    requires InFile(span, prefix) && Rising(prefix) && span.target.Some? && span.Covers(span.target.value)
    ensures var anchors := Anchors(span);
            && anchors != [] && span.start <= anchors[0] <= anchors[|anchors| - 1] <= span.end
            && (HullFits(span, prefix, capacity) <==> Bytes(prefix, anchors[0], anchors[|anchors| - 1]) <= capacity)
  {
    var anchors := Anchors(span);
    AnchorsBound(span);
    assert span.Carries(span.target.value);
    var low, high := anchors[0], anchors[|anchors| - 1];
    if HullFits(span, prefix, capacity) {
      var l, h :| FitsInside(span, prefix, capacity, l, h) &&
                  forall line :: span.Carries(line) && span.Covers(line) ==> l <= line <= h;
      WiderCostsMore(prefix, l, h, low, high);
    }
    if Bytes(prefix, low, high) <= capacity { assert FitsInside(span, prefix, capacity, low, high); }
  }

  method TakeWholeLines(span: Proposal, prefix: seq<int>, capacity: int) returns (taken: nat)
    requires InFile(span, prefix)
    ensures taken == TakeLines(prefix, span.start, span.end, 0, capacity)
  {
    taken := 0;
    var used, line := 0, span.start;
    while line <= span.end
      invariant span.start <= line <= span.end + 1
      invariant taken + TakeLines(prefix, line, span.end, used, capacity) ==
                TakeLines(prefix, span.start, span.end, 0, capacity)
    {
      var cost := prefix[line] - prefix[line - 1];
      if used + cost > capacity { return; }
      used := used + cost;
      taken := taken + 1;
      line := line + 1;
    }
  }

  method ExpandSpan(span: Proposal, prefix: seq<int>, capacity: int, lo: int, hi: int) returns (low: int, high: int)
    requires InFile(span, prefix) && span.start <= lo <= hi <= span.end
    ensures (low, high) == Expand(span, prefix, capacity, lo, hi)
  {
    low, high := lo, hi;
    var used := prefix[high] - prefix[low - 1];
    var progressed := true;
    while progressed
      invariant span.start <= low <= high <= span.end && used == Bytes(prefix, low, high)
      invariant Expand(span, prefix, capacity, low, high) == Expand(span, prefix, capacity, lo, hi)
      invariant !progressed ==> Expand(span, prefix, capacity, low, high) == (low, high)
      decreases span.end - high + low - span.start, if progressed then 1 else 0
    {
      progressed := false;
      if high < span.end {
        var cost := prefix[high + 1] - prefix[high];
        if used + cost <= capacity {
          high := high + 1;
          used := used + cost;
          progressed := true;
        }
      }
      if low > span.start {
        var cost := prefix[low - 1] - prefix[low - 2];
        if used + cost <= capacity {
          low := low - 1;
          used := used + cost;
          progressed := true;
        }
      }
    }
  }

  method FitSpan(span: Proposal, prefix: seq<int>, capacity: int) returns (r: Option<(int, int)>)
    requires InFile(span, prefix)
    ensures r == Fitted(span, prefix, capacity)
  {
    if prefix[span.end] - prefix[span.start - 1] <= capacity {
      return Some((span.start, span.end));
    }
    if span.target.None? {
      var taken := TakeWholeLines(span, prefix, capacity);
      return if taken == 0 then None else Some((span.start, span.start + taken - 1));
    }
    var anchors := LinesIn(span.extra + {span.target.value}, span.start, span.end);
    var primary := Min(Max(span.target.value, span.start), span.end);
    var low, high := primary, primary;
    if anchors != [] {
      low, high := anchors[0], anchors[|anchors| - 1];
    }
    if prefix[high] - prefix[low - 1] > capacity {
      low, high := primary, primary;
      if prefix[low] - prefix[low - 1] > capacity { return None; }
    }
    low, high := ExpandSpan(span, prefix, capacity, low, high);
    return Some((low, high));
  }
}
