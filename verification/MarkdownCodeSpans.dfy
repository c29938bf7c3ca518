/** `markCodeSpans`: pairing backtick runs. The code keeps a map from run length to the live
    opener of that length and a stack of lengths; the reference searches one stack of runs. */
module MarkdownCodeSpans {
  import opened MarkdownBase

  /** Kept backticks up to the next other character, as one opener or closer. Behind an escaped
      backtick a run starts inside a stretch, so it is maximal to the right only. */
  datatype Run = Run(position: nat, length: nat) {
    function End(): nat { position + length }
  }

  datatype CodeSpan = CodeSpan(open: nat, length: nat, close: nat) {
    function Opener(): Run { Run(open, length) }
    function Closer(): Run { Run(close, length) }
    function End(): nat { close + length }
    function Content(): Range { Range(open + length, close) }

    predicate Delimits(p: int) {
      open <= p < open + length || close <= p < close + length
    }

    /** The run is one of the two delimiters, or lies in the contents. */
    predicate Accounts(r: Run) {
      r == Opener() || r == Closer() || (open + length <= r.position && r.End() <= close)
    }
  }

  predicate Tick(line: Line, mask: Mask, i: nat)
    requires i < |line| == |mask|
  {
    line[i] == BACKTICK && mask[i] == Keep
  }

  function RunEnd(line: Line, mask: Mask, i: nat): (r: nat)
    requires |line| == |mask| && i <= |line|
    ensures i <= r <= |line|
    ensures forall k :: i <= k < r ==> Tick(line, mask, k)
    ensures r < |line| ==> !Tick(line, mask, r)
    decreases |line| - i
  {
    if i < |line| && Tick(line, mask, i) then RunEnd(line, mask, i + 1) else i
  }

  function PrecedingBackslashes(line: Line, index: nat): nat
    requires index <= |line|
  {
    if index > 0 && line[index - 1] == BACKSLASH then 1 + PrecedingBackslashes(line, index - 1) else 0
  }

  // ---------------------------------------------------------------- the reference

  /** `live` is the stack of openers, `seen` every run taken as a delimiter so far. */
  datatype CodeScan = CodeScan(index: nat, live: seq<Run>, spans: seq<CodeSpan>, seen: seq<Run>)

  /** Where on the stack the opener of this length is, or -1. */
  function FindLive(live: seq<Run>, length: nat): (k: int)
    ensures -1 <= k < |live|
    ensures k != -1 ==> live[k].length == length
    ensures k == -1 ==> forall i :: 0 <= i < |live| ==> live[i].length != length
  {
    if |live| == 0 then -1
    else if live[|live| - 1].length == length then |live| - 1
    else FindLive(live[..|live| - 1], length)
  }

  function Pair(s: CodeScan, k: nat, r: Run): CodeScan
    requires k < |s.live|
  {
    CodeScan(r.End(), s.live[..k], s.spans + [CodeSpan(s.live[k].position, r.length, r.position)], s.seen + [r])
  }

  function Push(s: CodeScan, r: Run): CodeScan {
    CodeScan(r.End(), s.live + [r], s.spans, s.seen + [r])
  }

  function CodeStep(line: Line, mask: Mask, s: CodeScan): (r: CodeScan)
    requires s.index < |line| == |mask|
    ensures s.index < r.index <= |line|
  {
    if !Tick(line, mask, s.index) then s.(index := s.index + 1)
    else
      assert RunEnd(line, mask, s.index) > s.index;
      var r := Run(s.index, RunEnd(line, mask, s.index) - s.index);
      var k := FindLive(s.live, r.length);
      if k != -1 then Pair(s, k, r)
      else if PrecedingBackslashes(line, s.index) % 2 == 1 then s.(index := s.index + 1)
      else Push(s, r)
  }

  function CodeRun(line: Line, mask: Mask, s: CodeScan): CodeScan
    requires |line| == |mask| && s.index <= |line|
    decreases |line| - s.index
  {
    if s.index == |line| then s else CodeRun(line, mask, CodeStep(line, mask, s))
  }

  const START_SCAN := CodeScan(0, [], [], [])

  function CodeSpans(line: Line, mask: Mask): seq<CodeSpan>
    requires |line| == |mask|
  {
    CodeRun(line, mask, START_SCAN).spans
  }

  /** Every run the pass treats as a delimiter; a backslash-escaped backtick is in none. */
  function DelimiterRuns(line: Line, mask: Mask): seq<Run>
    requires |line| == |mask|
  {
    CodeRun(line, mask, START_SCAN).seen
  }

  // ---------------------------------------------------------------- what the pairing keeps

  predicate RunAt(line: Line, mask: Mask, r: Run)
    requires |line| == |mask|
  {
    && r.length > 0 && r.End() <= |line|
    && (forall k :: r.position <= k < r.End() ==> Tick(line, mask, k))
    && (r.End() < |line| ==> !Tick(line, mask, r.End()))
  }

  predicate RunsSound(line: Line, mask: Mask, seen: seq<Run>, index: nat)
    requires |line| == |mask|
  {
    && (forall j :: 0 <= j < |seen| ==> RunAt(line, mask, seen[j]) && seen[j].End() <= index)
    && (forall i, j :: 0 <= i < j < |seen| ==> seen[i].End() < seen[j].position)
  }

  /** A later run never has the length of a live opener: it would have closed it. */
  predicate LiveSound(live: seq<Run>, seen: seq<Run>) {
    && (forall k :: 0 <= k < |live| ==> live[k] in seen)
    && (forall i, k :: 0 <= i < k < |live| ==> live[i].position < live[k].position && live[i].length != live[k].length)
    && (forall k, j :: 0 <= k < |live| && 0 <= j < |seen| && live[k].position < seen[j].position
          ==> seen[j].length != live[k].length)
  }

  /** A span joins a run to the next run of the same length. */
  predicate SpanSound(span: CodeSpan, seen: seq<Run>) {
    && span.Opener() in seen && span.Closer() in seen
    && span.open + span.length < span.close
    && forall j :: 0 <= j < |seen| && span.open < seen[j].position < span.close
         ==> seen[j].length != span.length
  }

  predicate SpansSound(spans: seq<CodeSpan>, seen: seq<Run>) {
    forall i :: 0 <= i < |spans| ==> SpanSound(spans[i], seen)
  }

  predicate LiveOutside(spans: seq<CodeSpan>, live: seq<Run>) {
    forall i, k :: 0 <= i < |spans| && 0 <= k < |live| ==>
      spans[i].End() <= live[k].position || live[k].End() <= spans[i].open
  }

  /** `a` was closed before `b`: it ends before `b`, or lies in the contents of `b`. */
  predicate NeverCross(a: CodeSpan, b: CodeSpan) {
    a.End() <= b.open || (b.open + b.length <= a.open && a.End() <= b.close)
  }

  predicate Laminar(spans: seq<CodeSpan>) {
    forall i, j :: 0 <= i < j < |spans| ==> NeverCross(spans[i], spans[j])
  }

  predicate Accounted(spans: seq<CodeSpan>, r: Run) {
    exists i :: 0 <= i < |spans| && spans[i].Accounts(r)
  }

  /** A run that is neither live nor a delimiter lies in the contents of some span. */
  predicate Complete(s: CodeScan) {
    forall j :: 0 <= j < |s.seen| ==> s.seen[j] in s.live || Accounted(s.spans, s.seen[j])
  }

  predicate CodeSound(line: Line, mask: Mask, s: CodeScan)
    requires |line| == |mask|
  {
    && s.index <= |line|
    && RunsSound(line, mask, s.seen, s.index)
    && LiveSound(s.live, s.seen)
    && SpansSound(s.spans, s.seen)
    && (forall i :: 0 <= i < |s.spans| ==> s.spans[i].End() <= s.index)
    && LiveOutside(s.spans, s.live)
    && Laminar(s.spans)
    && Complete(s)
  }

  lemma RunsAppend(line: Line, mask: Mask, seen: seq<Run>, index: nat, r: Run)
    requires |line| == |mask| && RunsSound(line, mask, seen, index)
    requires RunAt(line, mask, r) && index <= r.position
    ensures RunsSound(line, mask, seen + [r], r.End())
    ensures forall j :: 0 <= j < |seen| ==> seen[j].End() < r.position
  {
    forall j | 0 <= j < |seen|
      ensures seen[j].End() < r.position
    {
      assert Tick(line, mask, r.position);
    }
  }

  lemma AccountedLater(spans: seq<CodeSpan>, span: CodeSpan, r: Run)
    requires Accounted(spans, r) || span.Accounts(r)
    ensures Accounted(spans + [span], r)
  {
    if Accounted(spans, r) {
      var i :| 0 <= i < |spans| && spans[i].Accounts(r);
      assert (spans + [span])[i].Accounts(r);
    } else {
      assert (spans + [span])[|spans|].Accounts(r);
    }
  }

  lemma SpansSeenLater(spans: seq<CodeSpan>, seen: seq<Run>, r: Run)
    requires SpansSound(spans, seen)
    requires forall i :: 0 <= i < |spans| ==> spans[i].End() <= r.position
    ensures SpansSound(spans, seen + [r])
  {
    forall i | 0 <= i < |spans|
      ensures SpanSound(spans[i], seen + [r])
    {
      assert SpanSound(spans[i], seen);
    }
  }

  /** Pushing a run whose length no live opener has. */
  lemma PushLive(live: seq<Run>, seen: seq<Run>, r: Run)
    requires LiveSound(live, seen)
    requires forall j :: 0 <= j < |seen| ==> seen[j].End() < r.position
    requires forall i :: 0 <= i < |live| ==> live[i].length != r.length
    ensures LiveSound(live + [r], seen + [r])
  {
    var live', seen' := live + [r], seen + [r];
    assert seen'[|seen|] == r;
    forall k, j | 0 <= k < |live'| && 0 <= j < |seen'| && live'[k].position < seen'[j].position
      ensures seen'[j].length != live'[k].length
    {
      if k < |live| {
        assert live'[k] == live[k];
      }
    }
    forall i | 0 <= i < |live|
      ensures live[i] in seen' && live[i].position < r.position
    {
      assert live[i] in seen;
    }
  }

  lemma PushComplete(s: CodeScan, r: Run)
    requires Complete(s)
    ensures Complete(Push(s, r))
  {
    var p := Push(s, r);
    forall j | 0 <= j < |p.seen|
      ensures p.seen[j] in p.live || Accounted(p.spans, p.seen[j])
    {
      if j == |s.seen| {
        assert p.live[|s.live|] == r;
      } else {
        assert p.seen[j] == s.seen[j];
      }
    }
  }

  lemma PushSound(line: Line, mask: Mask, s: CodeScan, r: Run)
    requires |line| == |mask| && CodeSound(line, mask, s)
    requires RunAt(line, mask, r) && r.position == s.index
    requires FindLive(s.live, r.length) == -1
    ensures CodeSound(line, mask, Push(s, r))
  {
    hide RunAt, SpanSound, NeverCross, Accounted, RunsSound, LiveSound, Complete;
    var p := Push(s, r);
    RunsAppend(line, mask, s.seen, s.index, r);
    PushLive(s.live, s.seen, r);
    PushComplete(s, r);
    SpansSeenLater(s.spans, s.seen, r);
    RunEndsInLine(line, mask, r);
    assert LiveOutside(p.spans, p.live) by {
      forall i, k | 0 <= i < |p.spans| && 0 <= k < |p.live|
        ensures p.spans[i].End() <= p.live[k].position || p.live[k].End() <= p.spans[i].open
      {
        if k < |s.live| {
          assert p.live[k] == s.live[k];
        }
      }
    }
  }

  lemma RunEndsInLine(line: Line, mask: Mask, r: Run)
    requires |line| == |mask| && RunAt(line, mask, r)
    ensures r.position < r.End() <= |line|
  {
  }

  /** Live openers do not overlap. */
  lemma LiveApart(line: Line, mask: Mask, live: seq<Run>, seen: seq<Run>, index: nat, i: nat, k: nat)
    requires |line| == |mask| && RunsSound(line, mask, seen, index) && LiveSound(live, seen)
    requires i <= k < |live|
    ensures live[k].End() <= index
    ensures i < k ==> live[i].End() < live[k].position
  {
    hide RunAt;
    assert live[i] in seen && live[k] in seen;
    var a :| 0 <= a < |seen| && seen[a] == live[i];
    var b :| 0 <= b < |seen| && seen[b] == live[k];
    if i < k {
      assert live[i].position < live[k].position;
      assert !(b < a);
    }
  }

  /** The span that a run closes joins it to the last run of its length. */
  lemma PairedSpanSound(line: Line, mask: Mask, live: seq<Run>, seen: seq<Run>, k: nat, r: Run)
    requires |line| == |mask| && RunsSound(line, mask, seen, r.position) && LiveSound(live, seen)
    requires forall j :: 0 <= j < |seen| ==> seen[j].End() < r.position
    requires k < |live| && live[k].length == r.length
    ensures SpanSound(CodeSpan(live[k].position, r.length, r.position), seen + [r])
  {
    hide RunAt;
    var seen', span := seen + [r], CodeSpan(live[k].position, r.length, r.position);
    assert seen'[|seen|] == r;
    assert live[k] in seen;
    var o :| 0 <= o < |seen| && seen[o] == live[k];
    assert seen'[o] == span.Opener();
    forall j | 0 <= j < |seen'| && span.open < seen'[j].position < span.close
      ensures seen'[j].length != span.length
    {
      assert seen'[j] == seen[j];
    }
  }

  lemma PairedLaminar(s: CodeScan, k: nat, r: Run)
    requires k < |s.live| && s.live[k].length == r.length && r.position == s.index
    requires Laminar(s.spans) && LiveOutside(s.spans, s.live)
    requires forall i :: 0 <= i < |s.spans| ==> s.spans[i].End() <= s.index
    ensures Laminar(s.spans + [CodeSpan(s.live[k].position, r.length, r.position)])
  {
    var span := CodeSpan(s.live[k].position, r.length, r.position);
    forall i | 0 <= i < |s.spans|
      ensures NeverCross(s.spans[i], span)
    {
      assert s.spans[i].End() <= s.live[k].position || s.live[k].End() <= s.spans[i].open;
    }
  }

  /** Openers discarded by the pairing lie in the contents of the new span. */
  lemma PairedComplete(line: Line, mask: Mask, s: CodeScan, k: nat, r: Run)
    requires |line| == |mask| && RunsSound(line, mask, s.seen, s.index) && LiveSound(s.live, s.seen)
    requires Complete(s)
    requires k < |s.live| && s.live[k].length == r.length && r.position == s.index
    ensures Complete(Pair(s, k, r))
  {
    hide RunAt, RunsSound, LiveSound, Accounted;
    var span := CodeSpan(s.live[k].position, r.length, r.position);
    var seen := s.seen + [r];
    forall j | 0 <= j < |seen|
      ensures seen[j] in s.live[..k] || Accounted(s.spans + [span], seen[j])
    {
      if j == |s.seen| {
        AccountedLater(s.spans, span, r);
      } else if Accounted(s.spans, s.seen[j]) {
        AccountedLater(s.spans, span, s.seen[j]);
      } else {
        var i :| 0 <= i < |s.live| && s.live[i] == s.seen[j];
        if i < k {
          assert s.live[..k][i] == s.seen[j];
        } else {
          LiveApart(line, mask, s.live, s.seen, s.index, k, i);
          AccountedLater(s.spans, span, s.seen[j]);
        }
      }
    }
  }

  lemma PairedLive(live: seq<Run>, seen: seq<Run>, k: nat, r: Run)
    requires LiveSound(live, seen) && k < |live| && live[k].length == r.length
    ensures LiveSound(live[..k], seen + [r])
  {
    var live', seen' := live[..k], seen + [r];
    forall i, j | 0 <= i < |live'| && 0 <= j < |seen'| && live'[i].position < seen'[j].position
      ensures seen'[j].length != live'[i].length
    {
      assert live'[i] == live[i];
      if j == |seen| {
        assert live[i].length != live[k].length;
      } else {
        assert seen'[j] == seen[j];
      }
    }
    forall i | 0 <= i < |live'|
      ensures live'[i] in seen'
    {
      assert live[i] in seen;
    }
  }

  lemma PairSound(line: Line, mask: Mask, s: CodeScan, k: nat, r: Run)
    requires |line| == |mask| && CodeSound(line, mask, s)
    requires RunAt(line, mask, r) && r.position == s.index
    requires k < |s.live| && s.live[k].length == r.length
    ensures CodeSound(line, mask, Pair(s, k, r))
  {
    hide RunAt, SpanSound, NeverCross, Accounted, RunsSound, LiveSound, Complete, Laminar;
    var p := Pair(s, k, r);
    RunsAppend(line, mask, s.seen, s.index, r);
    PairedSpanSound(line, mask, s.live, s.seen, k, r);
    SpansSeenLater(s.spans, s.seen, r);
    PairedLaminar(s, k, r);
    PairedComplete(line, mask, s, k, r);
    PairedLive(s.live, s.seen, k, r);
    RunEndsInLine(line, mask, r);
    assert LiveOutside(p.spans, p.live) by {
      forall i, j | 0 <= i < |p.spans| && 0 <= j < |p.live|
        ensures p.spans[i].End() <= p.live[j].position || p.live[j].End() <= p.spans[i].open
      {
        assert p.live[j] == s.live[j];
        if i == |s.spans| {
          LiveApart(line, mask, s.live, s.seen, s.index, j, k);
        }
      }
    }
  }

  lemma RunAtCursor(line: Line, mask: Mask, index: nat)
    requires index < |line| == |mask| && Tick(line, mask, index)
    ensures RunEnd(line, mask, index) > index
    ensures RunAt(line, mask, Run(index, RunEnd(line, mask, index) - index))
  {
  }

  lemma CodeStepSound(line: Line, mask: Mask, s: CodeScan)
    requires |line| == |mask| && CodeSound(line, mask, s) && s.index < |line|
    ensures CodeSound(line, mask, CodeStep(line, mask, s))
  {
    hide RunAt, CodeSound, FindLive, Tick;
    if Tick(line, mask, s.index) {
      RunAtCursor(line, mask, s.index);
      var r := Run(s.index, RunEnd(line, mask, s.index) - s.index);
      var k := FindLive(s.live, r.length);
      if k != -1 {
        PairSound(line, mask, s, k, r);
      } else if PrecedingBackslashes(line, s.index) % 2 != 1 {
        PushSound(line, mask, s, r);
      } else {
        MoveOn(line, mask, s);
      }
    } else {
      MoveOn(line, mask, s);
    }
  }

  /** What the loop itself needs of a sound scan. */
  lemma LiveOrdered(line: Line, mask: Mask, s: CodeScan)
    requires |line| == |mask| && CodeSound(line, mask, s)
    ensures forall i, j :: 0 <= i < j < |s.live| ==>
      s.live[i].position < s.live[j].position && s.live[i].length != s.live[j].length
  {
  }

  lemma StartCodeSound(line: Line, mask: Mask)
    requires |line| == |mask|
    ensures CodeSound(line, mask, START_SCAN)
  {
  }

  lemma MoveOn(line: Line, mask: Mask, s: CodeScan)
    requires |line| == |mask| && CodeSound(line, mask, s) && s.index < |line|
    ensures CodeSound(line, mask, s.(index := s.index + 1))
  {
    hide RunAt, SpanSound, NeverCross, Accounted;
  }

  lemma {:induction false} CodeRunSound(line: Line, mask: Mask, s: CodeScan)
    requires |line| == |mask| && CodeSound(line, mask, s)
    ensures CodeSound(line, mask, CodeRun(line, mask, s)) && CodeRun(line, mask, s).index == |line|
    decreases |line| - s.index
  {
    if s.index < |line| {
      CodeStepSound(line, mask, s);
      CodeRunSound(line, mask, CodeStep(line, mask, s));
    }
  }

  /** Spans join a run to the next run of its length, never cross, and account for every run
      that could have been closed: a run outside all spans has no later run of its length. */
  lemma CodeSpansCorrect(line: Line, mask: Mask)
    requires |line| == |mask|
    ensures var spans, runs := CodeSpans(line, mask), DelimiterRuns(line, mask);
      && RunsSound(line, mask, runs, |line|)
      && SpansSound(spans, runs)
      && Laminar(spans)
      && forall i, j :: 0 <= i < j < |runs| && !Accounted(spans, runs[i]) ==> runs[j].length != runs[i].length
  {
    CodeRunSound(line, mask, START_SCAN);
    var s := CodeRun(line, mask, START_SCAN);
    forall i, j | 0 <= i < j < |s.seen| && !Accounted(s.spans, s.seen[i])
      ensures s.seen[j].length != s.seen[i].length
    {
      assert s.seen[i] in s.live;
      var k :| 0 <= k < |s.live| && s.live[k] == s.seen[i];
      assert s.seen[i].End() < s.seen[j].position;
    }
  }

  // ---------------------------------------------------------------- painting

  predicate Delimited(spans: seq<CodeSpan>, p: int) {
    exists i :: 0 <= i < |spans| && spans[i].Delimits(p)
  }

  function Contents(spans: seq<CodeSpan>): (r: seq<Range>)
    ensures |r| == |spans| && forall i :: 0 <= i < |r| ==> r[i] == spans[i].Content()
  {
    seq(|spans|, i requires 0 <= i < |spans| => spans[i].Content())
  }

  predicate InContents(spans: seq<CodeSpan>, p: int) {
    exists i :: 0 <= i < |spans| && spans[i].Content().Covers(p)
  }

  /** The map and the stack of lengths together hold exactly the stack of runs. */
  predicate Represents(openers: map<nat, int>, openLengths: seq<nat>, live: seq<Run>) {
    && |openLengths| == |live|
    && (forall i :: 0 <= i < |live| ==>
          openLengths[i] == live[i].length && live[i].length in openers
          && openers[live[i].length] == live[i].position)
    && (forall length :: length in openers ==>
          openers[length] == -1 || HasLength(live, length))
  }

  predicate HasLength(live: seq<Run>, length: nat) {
    exists i :: 0 <= i < |live| && live[i].length == length
  }

  lemma LookupIsSearch(openers: map<nat, int>, openLengths: seq<nat>, live: seq<Run>, length: nat)
    requires Represents(openers, openLengths, live)
    ensures var opener := if length in openers then openers[length] else -1;
      var k := FindLive(live, length);
      if k == -1 then opener == -1 else opener == live[k].position
  {
  }

  /** Unwinding the stack of lengths down to and including the opener just closed. */
  method Unwind(openers: map<nat, int>, openLengths: seq<nat>, opener: nat, ghost live: seq<Run>, ghost k: nat)
    returns (openers': map<nat, int>, openLengths': seq<nat>)
    requires Represents(openers, openLengths, live) && k < |live| && live[k].position == opener
    requires forall i, j :: 0 <= i < j < |live| ==>
      live[i].position < live[j].position && live[i].length != live[j].length
    ensures Represents(openers', openLengths', live[..k])
  {
    openers', openLengths' := openers, openLengths;
    while |openLengths'| > 0
      invariant k <= |openLengths'| <= |live|
      invariant Represents(openers', openLengths', live[..|openLengths'|])
      decreases |openLengths'|
    {
      var top := openLengths'[|openLengths'| - 1];
      var n := |openLengths'|;
      assert live[..n][n - 1] == live[n - 1];
      if (if top in openers' then openers'[top] else -1) < opener {
        break;
      }
      openLengths' := openLengths'[..n - 1];
      openers' := openers'[top := -1];
      forall length | length in openers'
        ensures openers'[length] == -1 || HasLength(live[..n - 1], length)
      {
        if openers'[length] != -1 {
          var i :| 0 <= i < |live[..n]| && live[..n][i].length == length;
          assert i != n - 1;
          assert live[..n - 1][i].length == length;
        }
      }
    }
  }

  method EndOfRun(line: Line, mask: array<Flag>, index: nat) returns (end: nat)
    requires |line| == mask.Length && index <= |line|
    ensures end == RunEnd(line, mask[..], index)
  {
    end := index;
    while end < |line| && line[end] == BACKTICK && mask[end] == Keep
      invariant index <= end <= |line|
      invariant RunEnd(line, mask[..], index) == RunEnd(line, mask[..], end)
    {
      end := end + 1;
    }
  }

  method CountBackslashes(line: Line, index: nat) returns (count: nat)
    requires index <= |line|
    ensures count == PrecedingBackslashes(line, index)
  {
    count := 0;
    while index - 1 - count >= 0 && line[index - 1 - count] == BACKSLASH
      invariant count <= index
      invariant PrecedingBackslashes(line, index) == count + PrecedingBackslashes(line, index - count)
    {
      count := count + 1;
    }
  }

  /** The delimiter ranges in the order in which the loop lists them. */
  function Delimiters(spans: seq<CodeSpan>): (r: seq<Range>)
    ensures |r| == 2 * |spans|
  {
    if |spans| == 0 then []
    else
      var last := spans[|spans| - 1];
      Delimiters(spans[..|spans| - 1])
      + [Range(last.open, last.open + last.length), Range(last.close, last.close + last.length)]
  }

  lemma {:induction false} DelimitersCover(spans: seq<CodeSpan>, p: int)
    ensures Covered(Delimiters(spans), p) <==> Delimited(spans, p)
  {
    if |spans| > 0 {
      var rest, last := spans[..|spans| - 1], spans[|spans| - 1];
      DelimitersCover(rest, p);
      var a, b := Range(last.open, last.open + last.length), Range(last.close, last.close + last.length);
      CoveredAppend(Delimiters(rest), a, p);
      CoveredAppend(Delimiters(rest) + [a], b, p);
      assert Delimiters(spans) == Delimiters(rest) + [a] + [b];
      if Delimited(rest, p) {
        var i :| 0 <= i < |rest| && rest[i].Delimits(p);
        assert spans[i].Delimits(p);
      }
      if Delimited(spans, p) {
        var i :| 0 <= i < |spans| && spans[i].Delimits(p);
        assert i == |rest| || rest[i].Delimits(p);
      }
    }
  }

  lemma ContentsCover(spans: seq<CodeSpan>, p: int)
    ensures Covered(Contents(spans), p) <==> InContents(spans, p)
  {
    if InContents(spans, p) {
      var i :| 0 <= i < |spans| && spans[i].Content().Covers(p);
      assert Contents(spans)[i].Covers(p);
    }
    if Covered(Contents(spans), p) {
      var i :| 0 <= i < |Contents(spans)| && Contents(spans)[i].Covers(p);
      assert spans[i].Content().Covers(p);
    }
  }

  lemma ContentsEnd(spans: seq<CodeSpan>, seen: seq<Run>, limit: nat)
    requires SpansSound(spans, seen) && Laminar(spans)
    requires forall i :: 0 <= i < |spans| ==> spans[i].End() <= limit
    ensures EndsNondecreasing(Contents(spans), limit)
  {
    forall i, j | 0 <= i < j < |spans|
      ensures Contents(spans)[i].to <= Contents(spans)[j].to
    {
      assert NeverCross(spans[i], spans[j]);
      assert SpanSound(spans[j], seen);
    }
  }

  method PaintDelimiters(mask: array<Flag>, delimiters: seq<Range>)
    modifies mask
    ensures forall p :: 0 <= p < mask.Length ==>
      mask[p] == if Covered(delimiters, p) then Drop else old(mask[p])
  {
    for cursor := 0 to |delimiters|
      invariant forall p :: 0 <= p < mask.Length ==>
        mask[p] == if Covered(delimiters[..cursor], p) then Drop else old(mask[p])
    {
      ghost var before := mask[..];
      FillArray(mask, Drop, delimiters[cursor].from, delimiters[cursor].to);
      assert delimiters[..cursor + 1] == delimiters[..cursor] + [delimiters[cursor]];
      forall p | 0 <= p < mask.Length
        ensures mask[p] == if Covered(delimiters[..cursor + 1], p) then Drop else old(mask[p])
      {
        CoveredAppend(delimiters[..cursor], delimiters[cursor], p);
        assert before[p] == if Covered(delimiters[..cursor], p) then Drop else old(mask[p]);
      }
    }
    assert delimiters[..|delimiters|] == delimiters;
  }

  lemma PairAppends(s: CodeScan, k: nat, r: Run)
    requires k < |s.live|
    ensures var span := CodeSpan(s.live[k].position, r.length, r.position);
      && Contents(Pair(s, k, r).spans) == Contents(s.spans) + [span.Content()]
      && Delimiters(Pair(s, k, r).spans) == Delimiters(s.spans)
           + [Range(span.open, span.open + r.length), Range(r.position, r.End())]
  {
    assert Pair(s, k, r).spans[..|s.spans|] == s.spans;
  }

  lemma CodeRunUnfolds(line: Line, mask: Mask, s: CodeScan)
    requires |line| == |mask| && s.index <= |line|
    ensures CodeRun(line, mask, s) ==
      if s.index == |line| then s else CodeRun(line, mask, CodeStep(line, mask, s))
  {
  }

  /** The loop that pairs the runs. */
  method PairRuns(line: Line, mask: array<Flag>) returns (contents: seq<Range>, delimiters: seq<Range>)
    requires |line| == mask.Length
    ensures contents == Contents(CodeSpans(line, mask[..]))
    ensures delimiters == Delimiters(CodeSpans(line, mask[..]))
  {
    hide CodeRun, CodeSound, Contents, Delimiters, Represents, FindLive;
    ghost var now := mask[..];
    ghost var s := START_SCAN;
    var openers: map<nat, int> := map[];
    var openLengths: seq<nat> := [];
    contents, delimiters := [], [];
    var index := 0;
    EmptyLists();
    StartCodeSound(line, now);
    while index < |line|
      invariant s.index == index <= |line|
      invariant CodeSound(line, now, s)
      invariant CodeRun(line, now, s) == CodeRun(line, now, START_SCAN)
      invariant Represents(openers, openLengths, s.live)
      invariant contents == Contents(s.spans) && delimiters == Delimiters(s.spans)
      decreases |line| - index
    {
      CodeStepSound(line, now, s);
      CodeRunUnfolds(line, now, s);
      ghost var next := CodeStep(line, now, s);
      if line[index] != BACKTICK || mask[index] != Keep {
        index := index + 1;
      } else {
        var end := EndOfRun(line, mask, index);
        assert RunEnd(line, now, index) > index;
        var length := end - index;
        LookupIsSearch(openers, openLengths, s.live, length);
        var opener := if length in openers then openers[length] else -1;
        ghost var r, k := Run(index, length), FindLive(s.live, length);
        if opener < 0 {
          assert k == -1;
          var count := CountBackslashes(line, index);
          if count % 2 == 1 {
            index := index + 1;
          } else {
            RepresentsPush(openers, openLengths, s.live, r);
            openers := openers[length := index];
            openLengths := openLengths + [length];
            index := end;
          }
        } else {
          PairAppends(s, k, r);
          LiveOrdered(line, now, s);
          delimiters := delimiters + [Range(opener, opener + length), Range(index, end)];
          contents := contents + [Range(opener + length, index)];
          openers, openLengths := Unwind(openers, openLengths, opener, s.live, k);
          index := end;
        }
      }
      s := next;
    }
    CodeRunUnfolds(line, now, s);
  }

  lemma EmptyLists()
    ensures Contents([]) == [] && Delimiters([]) == []
    ensures Represents(map[], [], [])
  {
  }

  lemma RepresentsPush(openers: map<nat, int>, openLengths: seq<nat>, live: seq<Run>, r: Run)
    requires Represents(openers, openLengths, live) && FindLive(live, r.length) == -1
    ensures Represents(openers[r.length := r.position], openLengths + [r.length], live + [r])
  {
    var lengths := openers[r.length := r.position];
    forall length | length in lengths
      ensures lengths[length] == -1 || HasLength(live + [r], length)
    {
      if length == r.length {
        assert (live + [r])[|live|].length == length;
      } else if lengths[length] != -1 {
        var i :| 0 <= i < |live| && live[i].length == length;
        assert (live + [r])[i].length == length;
      }
    }
  }

  /** The whole pass: DROP exactly on the delimiters of paired runs, LITERAL on the rest of
      what the spans contain, every other flag as it was. */
  method MarkCodeSpans(line: Line, mask: array<Flag>)
    requires |line| == mask.Length
    modifies mask
    ensures var spans := CodeSpans(line, old(mask[..]));
      forall p :: 0 <= p < |line| ==>
        mask[p] == if Delimited(spans, p) then Drop
                   else if InContents(spans, p) then Literal
                   else old(mask[p])
  {
    hide Contents, Delimiters, Covered;
    ghost var start := mask[..];
    CodeRunSound(line, start, START_SCAN);
    ghost var spans := CodeSpans(line, start);
    ContentsEnd(spans, DelimiterRuns(line, start), |line|);
    var contents, delimiters := PairRuns(line, mask);
    FillRanges(mask, Literal, contents);
    PaintDelimiters(mask, delimiters);
    forall p | 0 <= p < |line|
      ensures mask[p] == if Delimited(spans, p) then Drop
                         else if InContents(spans, p) then Literal
                         else start[p]
    {
      ContentsCover(spans, p);
      DelimitersCover(spans, p);
    }
  }
}
