/** Which backtick runs are delimiters of code spans and which of them belong together, said of the
    line and of the finished lists, without the stack of openers. */
module MarkdownCodeRule {
  import opened MarkdownBase
  import opened MarkdownCodeSpans

  /** A stretch of kept backticks starts here. */
  predicate StretchStart(line: Line, mask: Mask, i: nat)
    requires |line| == |mask|
  {
    i < |line| && Tick(line, mask, i) && (i == 0 || !Tick(line, mask, i - 1))
  }

  predicate Escaped(line: Line, i: nat)
    requires i <= |line|
  {
    PrecedingBackslashes(line, i) % 2 == 1
  }

  /** A span that was closed before `p` has used up the run or swallowed it. */
  predicate TakenBefore(spans: seq<CodeSpan>, r: Run, p: nat) {
    exists i :: 0 <= i < |spans| && spans[i].close < p && spans[i].Accounts(r)
  }

  /** `o` is an opener that waits, at `p`, for a closer of its length. */
  predicate Waits(spans: seq<CodeSpan>, runs: seq<Run>, o: Run, p: nat) {
    o in runs && o.position < p && !TakenBefore(spans, o, p)
  }

  predicate Awaited(spans: seq<CodeSpan>, runs: seq<Run>, length: nat, p: nat) {
    exists j :: 0 <= j < |runs| && runs[j].length == length && Waits(spans, runs, runs[j], p)
  }

  /** A run is a whole stretch, unless a backslash escapes it and no opener waits for one of its
      length; then it is the stretch without its first backtick. */
  predicate IsDelimiter(line: Line, mask: Mask, spans: seq<CodeSpan>, runs: seq<Run>, r: Run)
    requires |line| == |mask|
  {
    && RunAt(line, mask, r)
    && (|| (StretchStart(line, mask, r.position)
            && (!Escaped(line, r.position) || Awaited(spans, runs, r.length, r.position)))
        || (r.position > 0 && StretchStart(line, mask, r.position - 1) && Escaped(line, r.position - 1)
            && !Awaited(spans, runs, r.length + 1, r.position - 1)))
  }

  /** A code span joins an opener that waits to the next delimiter of its length. */
  predicate IsSpan(spans: seq<CodeSpan>, runs: seq<Run>, span: CodeSpan) {
    span.Closer() in runs && Waits(spans, runs, span.Opener(), span.close)
  }

  // ---------------------------------------------------------------- what the stack holds

  lemma LiveWaits(line: Line, mask: Mask, s: CodeScan, o: Run)
    requires |line| == |mask| && CodeSound(line, mask, s)
    ensures o in s.live <==> Waits(s.spans, s.seen, o, s.index)
  {
    hide RunAt, SpanSound, NeverCross;
    if o in s.live {
      var k :| 0 <= k < |s.live| && s.live[k] == o;
      RunLies(line, mask, s, o);
      forall i | 0 <= i < |s.spans| && s.spans[i].close < s.index
        ensures !s.spans[i].Accounts(o)
      {
        assert s.spans[i].End() <= s.live[k].position || s.live[k].End() <= s.spans[i].open;
        SpanLies(line, mask, s, i);
      }
    } else if o in s.seen {
      var j :| 0 <= j < |s.seen| && s.seen[j] == o;
      assert Accounted(s.spans, o);
      var i :| 0 <= i < |s.spans| && s.spans[i].Accounts(o);
      SpanLies(line, mask, s, i);
    }
  }

  lemma RunLies(line: Line, mask: Mask, s: CodeScan, o: Run)
    requires |line| == |mask| && CodeSound(line, mask, s) && o in s.live
    ensures o in s.seen && o.position < o.End() <= s.index && o.length > 0
  {
    assert o in s.seen;
    var j :| 0 <= j < |s.seen| && s.seen[j] == o;
    assert RunAt(line, mask, s.seen[j]);
  }

  lemma SpanLies(line: Line, mask: Mask, s: CodeScan, i: nat)
    requires |line| == |mask| && CodeSound(line, mask, s) && i < |s.spans|
    ensures var x := s.spans[i]; 0 < x.length && x.open + x.length < x.close < x.End() <= s.index
  {
    var x := s.spans[i];
    assert SpanSound(x, s.seen);
    var j :| 0 <= j < |s.seen| && s.seen[j] == x.Opener();
    assert RunAt(line, mask, s.seen[j]);
  }

  lemma AwaitedIsLive(line: Line, mask: Mask, s: CodeScan, length: nat)
    requires |line| == |mask| && CodeSound(line, mask, s)
    ensures Awaited(s.spans, s.seen, length, s.index) <==> FindLive(s.live, length) != -1
  {
    hide CodeSound, Waits;
    var k := FindLive(s.live, length);
    if k != -1 {
      LiveWaits(line, mask, s, s.live[k]);
      WaitsInRuns(s, s.live[k]);
      var j :| 0 <= j < |s.seen| && s.seen[j] == s.live[k];
    }
    if Awaited(s.spans, s.seen, length, s.index) {
      var j :| 0 <= j < |s.seen| && s.seen[j].length == length && Waits(s.spans, s.seen, s.seen[j], s.index);
      LiveWaits(line, mask, s, s.seen[j]);
      assert s.seen[j] in s.live;
    }
  }

  lemma WaitsInRuns(s: CodeScan, o: Run)
    requires Waits(s.spans, s.seen, o, s.index)
    ensures o in s.seen
  {
  }

  // ---------------------------------------------------------------- later turns change nothing

  /** From `s` to `t` runs and spans are added at or behind the cursor of `s` only. */
  predicate Grows(s: CodeScan, t: CodeScan) {
    && (t.seen == s.seen || (|t.seen| == |s.seen| + 1 && t.seen[..|s.seen|] == s.seen
                             && t.seen[|s.seen|].position == s.index))
    && (t.spans == s.spans || (|t.spans| == |s.spans| + 1 && t.spans[..|s.spans|] == s.spans
                               && t.spans[|s.spans|].close == s.index))
  }

  lemma TakenStays(s: CodeScan, t: CodeScan, o: Run, p: nat)
    requires Grows(s, t) && p <= s.index
    ensures TakenBefore(t.spans, o, p) <==> TakenBefore(s.spans, o, p)
  {
    if TakenBefore(t.spans, o, p) {
      var i :| 0 <= i < |t.spans| && t.spans[i].close < p && t.spans[i].Accounts(o);
      assert i < |s.spans| && s.spans[i] == t.spans[i];
    }
    if TakenBefore(s.spans, o, p) {
      var i :| 0 <= i < |s.spans| && s.spans[i].close < p && s.spans[i].Accounts(o);
      assert t.spans[i] == s.spans[i];
    }
  }

  lemma WaitsStays(s: CodeScan, t: CodeScan, o: Run, p: nat)
    requires Grows(s, t) && p <= s.index
    ensures Waits(t.spans, t.seen, o, p) <==> Waits(s.spans, s.seen, o, p)
  {
    hide TakenBefore;
    TakenStays(s, t, o, p);
    if o in t.seen && o.position < p {
      var j :| 0 <= j < |t.seen| && t.seen[j] == o;
      assert s.seen[j] == o;
    }
  }

  lemma AwaitedStays(s: CodeScan, t: CodeScan, length: nat, p: nat)
    requires Grows(s, t) && p <= s.index
    ensures Awaited(t.spans, t.seen, length, p) <==> Awaited(s.spans, s.seen, length, p)
  {
    hide Waits;
    if Awaited(t.spans, t.seen, length, p) {
      var j :| 0 <= j < |t.seen| && t.seen[j].length == length && Waits(t.spans, t.seen, t.seen[j], p);
      WaitsStays(s, t, t.seen[j], p);
      WaitsEarlier(t, t.seen[j], p);
      assert s.seen[j] == t.seen[j];
    }
    if Awaited(s.spans, s.seen, length, p) {
      var j :| 0 <= j < |s.seen| && s.seen[j].length == length && Waits(s.spans, s.seen, s.seen[j], p);
      WaitsStays(s, t, s.seen[j], p);
      assert t.seen[j] == s.seen[j];
    }
  }

  lemma WaitsEarlier(s: CodeScan, o: Run, p: nat)
    requires Waits(s.spans, s.seen, o, p)
    ensures o.position < p
  {
  }

  // ---------------------------------------------------------------- each turn follows the rule

  /** Behind the cursor the rule is obeyed, and the cursor is not within a run. */
  ghost predicate Obeys(line: Line, mask: Mask, s: CodeScan)
    requires |line| == |mask|
  {
    && CodeSound(line, mask, s)
    && (forall r: Run :: r.position < s.index ==>
          (r in s.seen <==> IsDelimiter(line, mask, s.spans, s.seen, r)))
    && (forall x: CodeSpan :: x.close < s.index ==> (x in s.spans <==> IsSpan(s.spans, s.seen, x)))
    && AtEdge(line, mask, s)
  }

  /** The cursor is at the start of a stretch, outside all stretches, or just behind an escaped
      backtick that was passed over. */
  predicate AtEdge(line: Line, mask: Mask, s: CodeScan)
    requires |line| == |mask| && s.index <= |line|
  {
    s.index < |line| && Tick(line, mask, s.index) && s.index > 0 && Tick(line, mask, s.index - 1) ==>
      && StretchStart(line, mask, s.index - 1) && Escaped(line, s.index - 1)
      && !Awaited(s.spans, s.seen, RunEnd(line, mask, s.index) - (s.index - 1), s.index - 1)
  }

  lemma RunsStay(line: Line, mask: Mask, s: CodeScan, t: CodeScan, r: Run)
    requires |line| == |mask| && Obeys(line, mask, s) && Grows(s, t) && r.position < s.index
    ensures r in t.seen <==> IsDelimiter(line, mask, t.spans, t.seen, r)
  {
    hide CodeSound, Awaited, RunAt, AtEdge, IsSpan, StretchStart, Escaped;
    AwaitedStays(s, t, r.length, r.position);
    if r.position > 0 {
      AwaitedStays(s, t, r.length + 1, r.position - 1);
    }
    if r in t.seen {
      var j :| 0 <= j < |t.seen| && t.seen[j] == r;
      assert s.seen[j] == r;
    }
    if r in s.seen {
      var j :| 0 <= j < |s.seen| && s.seen[j] == r;
      assert t.seen[j] == r;
    }
  }

  lemma SpansStay(line: Line, mask: Mask, s: CodeScan, t: CodeScan, x: CodeSpan)
    requires |line| == |mask| && Obeys(line, mask, s) && Grows(s, t) && x.close < s.index
    ensures x in t.spans <==> IsSpan(t.spans, t.seen, x)
  {
    hide CodeSound, Waits, AtEdge, IsDelimiter;
    WaitsStays(s, t, x.Opener(), x.close);
    if x in t.spans {
      var j :| 0 <= j < |t.spans| && t.spans[j] == x;
      assert s.spans[j] == x;
    }
    if x in s.spans {
      var j :| 0 <= j < |s.spans| && s.spans[j] == x;
      assert t.spans[j] == x;
    }
    if x.Closer() in t.seen {
      var j :| 0 <= j < |t.seen| && t.seen[j] == x.Closer();
      assert s.seen[j] == x.Closer();
    }
    if x.Closer() in s.seen {
      var j :| 0 <= j < |s.seen| && s.seen[j] == x.Closer();
      assert t.seen[j] == x.Closer();
    }
  }

  lemma SeenBehind(line: Line, mask: Mask, s: CodeScan)
    requires |line| == |mask| && CodeSound(line, mask, s)
    ensures forall r :: r in s.seen ==> RunAt(line, mask, r) && r.position < r.End() <= s.index
    ensures forall x :: x in s.spans ==> x.close < s.index
  {
    hide RunAt, CodeSound;
    forall r | r in s.seen
      ensures RunAt(line, mask, r) && r.position < r.End() <= s.index
    {
      RunBehind(line, mask, s, r);
    }
    forall x | x in s.spans
      ensures x.close < s.index
    {
      var j :| 0 <= j < |s.spans| && s.spans[j] == x;
      SpanLies(line, mask, s, j);
    }
  }

  lemma RunBehind(line: Line, mask: Mask, s: CodeScan, r: Run)
    requires |line| == |mask| && CodeSound(line, mask, s) && r in s.seen
    ensures RunAt(line, mask, r) && r.position < r.End() <= s.index
  {
    hide LiveSound, SpansSound, LiveOutside, Laminar, Complete;
    var j :| 0 <= j < |s.seen| && s.seen[j] == r;
    assert RunAt(line, mask, s.seen[j]) && s.seen[j].End() <= s.index;
  }

  lemma RunHasLength(line: Line, mask: Mask, r: Run)
    requires |line| == |mask| && RunAt(line, mask, r)
    ensures r.length > 0 && r.position < |line| && Tick(line, mask, r.position)
  {
  }

  /** Where a run starts it ends where the backticks do. */
  lemma RunIsStretch(line: Line, mask: Mask, r: Run)
    requires |line| == |mask| && RunAt(line, mask, r) && r.position < |line|
    ensures r.End() == RunEnd(line, mask, r.position)
  {
    var e := RunEnd(line, mask, r.position);
  }

  lemma PassedOver(line: Line, mask: Mask, s: CodeScan)
    requires s.index < |line| == |mask| && Tick(line, mask, s.index)
    requires CodeStep(line, mask, s) == s.(index := s.index + 1)
    ensures FindLive(s.live, RunEnd(line, mask, s.index) - s.index) == -1 && Escaped(line, s.index)
  {
    hide FindLive;
  }

  lemma NoRunPassed(line: Line, mask: Mask, s: CodeScan, r: Run)
    requires |line| == |mask| && Obeys(line, mask, s) && s.index < |line| && r.position == s.index
    requires CodeStep(line, mask, s) == s.(index := s.index + 1)
    ensures r !in s.seen && !IsDelimiter(line, mask, s.spans, s.seen, r)
  {
    hide CodeStep, CodeSound, Waits, Awaited, FindLive, IsSpan;
    SeenBehind(line, mask, s);
    if RunAt(line, mask, r) {
      RunHasLength(line, mask, r);
      RunIsStretch(line, mask, r);
      AwaitedIsLive(line, mask, s, r.length);
      PassedOver(line, mask, s);
    }
  }

  /** A turn that takes no run: nothing starts at the cursor, or an escaped backtick is passed over. */
  lemma NothingTaken(line: Line, mask: Mask, s: CodeScan, t: CodeScan)
    requires |line| == |mask| && Obeys(line, mask, s) && s.index < |line| && t == CodeStep(line, mask, s)
    requires t == s.(index := s.index + 1)
    ensures forall r: Run :: r.position == s.index ==> r !in s.seen && !IsDelimiter(line, mask, s.spans, s.seen, r)
    ensures forall x: CodeSpan :: x.close == s.index ==> x !in s.spans && !IsSpan(s.spans, s.seen, x)
    ensures AtEdge(line, mask, t)
  {
    hide CodeStep, CodeSound, Waits, Awaited, FindLive, IsDelimiter;
    SeenBehind(line, mask, s);
    forall r: Run | r.position == s.index
      ensures r !in s.seen && !IsDelimiter(line, mask, s.spans, s.seen, r)
    {
      NoRunPassed(line, mask, s, r);
    }
    if Tick(line, mask, s.index) {
      AwaitedIsLive(line, mask, s, RunEnd(line, mask, s.index) - s.index);
      PassedOver(line, mask, s);
    }
  }

  /** What it means that the turn has taken the run `r`. */
  predicate Takes(line: Line, mask: Mask, s: CodeScan, t: CodeScan, r: Run)
    requires |line| == |mask|
  {
    && s.index < |line| && Tick(line, mask, s.index) && RunAt(line, mask, r) && r.position == s.index
    && t.seen == s.seen + [r] && t.index == r.End() && Grows(s, t)
    && (FindLive(s.live, r.length) != -1 || !Escaped(line, s.index))
  }

  lemma TakenIsDelimiter(line: Line, mask: Mask, s: CodeScan, t: CodeScan, r: Run)
    requires |line| == |mask| && Obeys(line, mask, s) && Takes(line, mask, s, t, r)
    ensures r in t.seen && IsDelimiter(line, mask, t.spans, t.seen, r)
  {
    hide CodeSound, Waits, Awaited, FindLive, IsSpan;
    assert t.seen[|s.seen|] == r;
    AwaitedIsLive(line, mask, s, r.length);
    AwaitedStays(s, t, r.length, s.index);
    RunIsStretch(line, mask, r);
    if s.index > 0 {
      AwaitedStays(s, t, r.length + 1, s.index - 1);
    }
  }

  lemma NoneWithin(line: Line, mask: Mask, s: CodeScan, t: CodeScan, r: Run, q: Run)
    requires |line| == |mask| && CodeSound(line, mask, s) && Takes(line, mask, s, t, r)
    requires s.index <= q.position < t.index && q != r
    ensures q !in t.seen && !IsDelimiter(line, mask, t.spans, t.seen, q)
  {
    hide CodeSound, Awaited, FindLive, Grows;
    SeenBehind(line, mask, s);
    if RunAt(line, mask, q) {
      AwaitedIsLive(line, mask, s, r.length);
      AwaitedStays(s, t, r.length, s.index);
      RunIsStretch(line, mask, r);
      RunIsStretch(line, mask, q);
      RunEndWithin(line, mask, s.index, q.position);
      assert Tick(line, mask, q.position - 1);
    }
  }

  /** A turn that takes the run at the cursor. */
  lemma RunTaken(line: Line, mask: Mask, s: CodeScan, t: CodeScan, r: Run)
    requires |line| == |mask| && Obeys(line, mask, s) && Takes(line, mask, s, t, r)
    ensures forall q: Run :: s.index <= q.position < t.index ==>
      (q in t.seen <==> IsDelimiter(line, mask, t.spans, t.seen, q))
  {
    hide IsDelimiter, Takes, CodeSound, IsSpan, AtEdge;
    TakenIsDelimiter(line, mask, s, t, r);
    forall q: Run | s.index <= q.position < t.index
      ensures q in t.seen <==> IsDelimiter(line, mask, t.spans, t.seen, q)
    {
      if q != r {
        NoneWithin(line, mask, s, t, r, q);
      }
    }
  }

  lemma RunEndWithin(line: Line, mask: Mask, i: nat, j: nat)
    requires |line| == |mask| && i <= j <= |line| && j < RunEnd(line, mask, i)
    ensures RunEnd(line, mask, j) == RunEnd(line, mask, i)
  {
    var e, f := RunEnd(line, mask, i), RunEnd(line, mask, j);
  }

  /** Which span that run closes, if any. */
  lemma SpanTaken(line: Line, mask: Mask, s: CodeScan, t: CodeScan, r: Run, x: CodeSpan)
    requires |line| == |mask| && Obeys(line, mask, s) && s.index < |line| && Tick(line, mask, s.index)
    requires r == Run(s.index, RunEnd(line, mask, s.index) - s.index) && RunAt(line, mask, r)
    requires t == CodeStep(line, mask, s) && t.seen == s.seen + [r] && t.index == r.End() && Grows(s, t)
    requires t == if FindLive(s.live, r.length) != -1 then Pair(s, FindLive(s.live, r.length), r) else Push(s, r)
    requires s.index <= x.close < t.index
    ensures x in t.spans <==> IsSpan(t.spans, t.seen, x)
  {
    SeenBehind(line, mask, s);
    var k := FindLive(s.live, r.length);
    if x.Closer() in t.seen {
      assert x.Closer() == r;
      LiveWaits(line, mask, s, x.Opener());
      WaitsStays(s, t, x.Opener(), s.index);
      if k != -1 {
        LiveWaits(line, mask, s, s.live[k]);
        WaitsStays(s, t, s.live[k], s.index);
        assert x.Opener() in s.live ==> x.Opener() == s.live[k];
      }
    }
    if k != -1 {
      assert t.spans[|s.spans|].Closer() == r && r in t.seen;
    }
    hide CodeSound, Waits, FindLive, CodeStep;
  }

  lemma StepGrows(line: Line, mask: Mask, s: CodeScan)
    requires s.index < |line| == |mask|
    ensures Grows(s, CodeStep(line, mask, s))
  {
    hide FindLive, Tick;
  }

  lemma StepObeys(line: Line, mask: Mask, s: CodeScan)
    requires |line| == |mask| && Obeys(line, mask, s) && s.index < |line|
    ensures Obeys(line, mask, CodeStep(line, mask, s))
  {
    hide CodeSound, IsSpan, IsDelimiter, AtEdge, CodeStep, Grows;
    CodeStepSound(line, mask, s);
    StepGrows(line, mask, s);
    var t := CodeStep(line, mask, s);
    TurnTaken(line, mask, s, t);
    forall r: Run | r.position < s.index
      ensures r in t.seen <==> IsDelimiter(line, mask, t.spans, t.seen, r)
    {
      RunsStay(line, mask, s, t, r);
    }
    forall x: CodeSpan | x.close < s.index
      ensures x in t.spans <==> IsSpan(t.spans, t.seen, x)
    {
      SpansStay(line, mask, s, t, x);
    }
  }

  lemma TurnTaken(line: Line, mask: Mask, s: CodeScan, t: CodeScan)
    requires |line| == |mask| && Obeys(line, mask, s) && s.index < |line|
    requires t == CodeStep(line, mask, s) && Grows(s, t)
    ensures forall r: Run :: s.index <= r.position < t.index ==>
      (r in t.seen <==> IsDelimiter(line, mask, t.spans, t.seen, r))
    ensures forall x: CodeSpan :: s.index <= x.close < t.index ==> (x in t.spans <==> IsSpan(t.spans, t.seen, x))
    ensures AtEdge(line, mask, t)
  {
    hide Obeys, RunAt, IsSpan, IsDelimiter, FindLive;
    if t == s.(index := s.index + 1) {
      NothingTaken(line, mask, s, t);
    } else {
      RunAtCursor(line, mask, s.index);
      var r := Run(s.index, RunEnd(line, mask, s.index) - s.index);
      RunTaken(line, mask, s, t, r);
      forall x: CodeSpan | s.index <= x.close < t.index
        ensures x in t.spans <==> IsSpan(t.spans, t.seen, x)
      {
        SpanTaken(line, mask, s, t, r, x);
      }
    }
  }

  lemma {:induction false} RunObeys(line: Line, mask: Mask, s: CodeScan)
    requires |line| == |mask| && Obeys(line, mask, s) && s.index <= |line|
    ensures Obeys(line, mask, CodeRun(line, mask, s)) && CodeRun(line, mask, s).index == |line|
    decreases |line| - s.index
  {
    hide Obeys, CodeStep;
    if s.index < |line| {
      StepObeys(line, mask, s);
      RunObeys(line, mask, CodeStep(line, mask, s));
    }
  }

  /** The pass takes for delimiters exactly the runs of the rule, and for code spans exactly the
      pairs of the rule: it leaves out none and finds no other. */
  lemma CodeSpansExactly(line: Line, mask: Mask, r: Run, x: CodeSpan)
    requires |line| == |mask|
    ensures var spans, runs := CodeSpans(line, mask), DelimiterRuns(line, mask);
      && (r in runs <==> IsDelimiter(line, mask, spans, runs, r))
      && (x in spans <==> IsSpan(spans, runs, x))
  {
    StartCodeSound(line, mask);
    RunObeys(line, mask, START_SCAN);
    SeenBehind(line, mask, CodeRun(line, mask, START_SCAN));
    hide CodeSound, CodeRun, Waits, Awaited;
    if RunAt(line, mask, r) {
      RunHasLength(line, mask, r);
    }
  }
}
