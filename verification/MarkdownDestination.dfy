/** Link destinations. The scanner answers each query from two parenthesis tables and a
    handful of caching finders; the functions here say, by one left-to-right scan, what the
    answer should be. */
module MarkdownDestination {
  import opened MarkdownBase

  // ---------------------------------------------------------------- caching finders

  /** The two variables captured by the closure that `monotoneFinder` returns. */
  datatype Finder = Finder(cached: int, exhausted: bool)

  const FRESH_FINDER := Finder(-1, false)

  predicate FinderFits(st: Finder, length: nat) {
    -1 <= st.cached < length
  }

  function FindSpec(line: Line, mask: Mask, cls: CharClass, st: Finder, from: nat): (r: (int, Finder))
    requires |line| == |mask| && FinderFits(st, |line|)
    ensures FinderFits(r.1, |line|)
    ensures r.0 == -1 || from <= r.0 < |line|
  {
    if st.exhausted then (-1, st)
    else if st.cached >= from then (st.cached, st)
    else
      var hit := NextMatch(line, mask, cls, from);
      if hit == -1 then (-1, st.(exhausted := true)) else (hit, st.(cached := hit))
  }

  method Find(line: Line, mask: array<Flag>, cls: CharClass, st: Finder, from: nat)
    returns (r: int, st': Finder)
    requires |line| == mask.Length && FinderFits(st, |line|)
    ensures (r, st') == FindSpec(line, mask[..], cls, st, from)
  {
    if st.exhausted {
      return -1, st;
    }
    if st.cached >= from {
      return st.cached, st;
    }
    var index := from;
    while index < |line| && !(mask[index] == Keep && cls.Matches(line[index]))
      invariant from <= index
      invariant NextMatch(line, mask[..], cls, from) == NextMatch(line, mask[..], cls, index)
    {
      index := index + 1;
    }
    if index >= |line| {
      return -1, st.(exhausted := true);
    }
    return index, st.(cached := index);
  }

  /** Everything the finder remembers is right for a query at `low`. */
  predicate Honest(line: Line, mask: Mask, cls: CharClass, st: Finder, low: nat)
    requires |line| == |mask|
  {
    && FinderFits(st, |line|)
    && (st.exhausted ==> NextMatch(line, mask, cls, low) == -1)
    && (!st.exhausted && st.cached >= low ==> NextMatch(line, mask, cls, low) == st.cached)
  }

  /** Memory stays right as the cursor moves on, whatever is written behind the cursor. */
  lemma HonestLater(line: Line, mask: Mask, mask': Mask, cls: CharClass, st: Finder, low: nat, low': nat)
    requires |line| == |mask| && Honest(line, mask, cls, st, low)
    requires low <= low' && AgreeFrom(mask, mask', low')
    ensures Honest(line, mask', cls, st, low')
  {
    NextMatchAgrees(line, mask, mask', cls, low');
    var r := NextMatch(line, mask, cls, low');
    if r != -1 {
      assert Hit(line, mask, cls, r);
    }
  }

  /** A finder queried at or after every earlier query is the plain search. */
  lemma HonestAnswer(line: Line, mask: Mask, cls: CharClass, st: Finder, from: nat)
    requires |line| == |mask| && Honest(line, mask, cls, st, from)
    ensures FindSpec(line, mask, cls, st, from).0 == NextMatch(line, mask, cls, from)
    ensures Honest(line, mask, cls, FindSpec(line, mask, cls, st, from).1, from)
  {
  }

  /** Where the finder's memory ends: it takes it that nothing matches before this point. */
  function MemoryEnd(st: Finder, length: nat): nat
    requires FinderFits(st, length)
  {
    if st.exhausted then length else st.cached + 1
  }

  /** For queries in any order: the finder is the plain search exactly when the characters
      between the query and its remembered answer hold no other match. */
  lemma FinderExactly(line: Line, mask: Mask, cls: CharClass, st: Finder, from: nat)
    requires |line| == |mask| && FinderFits(st, |line|)
    requires !st.exhausted && st.cached >= from ==> Hit(line, mask, cls, st.cached)
    ensures FindSpec(line, mask, cls, st, from).0 == NextMatch(line, mask, cls, from)
      <==> forall k :: from <= k < MemoryEnd(st, |line|) && Hit(line, mask, cls, k)
                       ==> !st.exhausted && k == st.cached
  {
    var first := NextMatch(line, mask, cls, from);
    if st.exhausted {
      if first != -1 {
        assert Hit(line, mask, cls, first);
      }
    } else if st.cached >= from {
      assert Hit(line, mask, cls, first);
    }
  }

  // ---------------------------------------------------------------- parenthesis tables

  /** The stack left after the right-to-left pass has processed positions `i` and up. */
  function ClosersFrom(line: Line, mask: Mask, i: nat): (s: seq<nat>)
    requires |line| == |mask| && i <= |line|
    ensures forall k :: 0 <= k < |s| ==> i <= s[k] < |line|
    decreases |line| - i
  {
    if i == |line| then []
    else
      var s := ClosersFrom(line, mask, i + 1);
      if mask[i] == Keep && line[i] == CLOSE_PAREN then s + [i]
      else if mask[i] == Keep && line[i] == OPEN_PAREN && |s| > 0 then s[..|s| - 1]
      else s
  }

  /** The stack before the left-to-right pass processes position `i`. */
  function OpensBefore(line: Line, mask: Mask, i: nat): (s: seq<nat>)
    requires |line| == |mask| && i <= |line|
    ensures forall k :: 0 <= k < |s| ==> s[k] < i
  {
    if i == 0 then []
    else
      var s := OpensBefore(line, mask, i - 1);
      if mask[i - 1] == Keep && line[i - 1] == OPEN_PAREN then s + [i - 1]
      else if mask[i - 1] == Keep && line[i - 1] == CLOSE_PAREN && |s| > 0 then s[..|s| - 1]
      else s
  }

  /** `stack.at(-1) ?? -1` */
  function Top(s: seq<nat>): int {
    if |s| == 0 then -1 else s[|s| - 1]
  }

  /** First position where a scan from `i` at depth `depth` meets an unmatched `)`, or -1. */
  function FirstUnmatched(line: Line, mask: Mask, i: nat, depth: nat): (r: int)
    requires |line| == |mask| && i <= |line|
    ensures r == -1 || i <= r < |line|
    decreases |line| - i
  {
    if i == |line| then -1
    else if mask[i] == Keep && line[i] == CLOSE_PAREN then
      if depth == 0 then i else FirstUnmatched(line, mask, i + 1, depth - 1)
    else if mask[i] == Keep && line[i] == OPEN_PAREN then FirstUnmatched(line, mask, i + 1, depth + 1)
    else FirstUnmatched(line, mask, i + 1, depth)
  }

  /** The right-to-left stack lists the unmatched closers of the suffix, nearest last. */
  lemma {:induction false} ClosersAreUnmatched(line: Line, mask: Mask, i: nat, depth: nat)
    requires |line| == |mask| && i <= |line|
    ensures var s := ClosersFrom(line, mask, i);
      FirstUnmatched(line, mask, i, depth) == if depth < |s| then s[|s| - 1 - depth] else -1
    decreases |line| - i
  {
    hide ClosersFrom, FirstUnmatched;
    ClosersStep(line, mask, i, depth);
    if i < |line| {
      if mask[i] == Keep && line[i] == CLOSE_PAREN {
        if depth > 0 {
          ClosersAreUnmatched(line, mask, i + 1, depth - 1);
        }
      } else if mask[i] == Keep && line[i] == OPEN_PAREN {
        ClosersAreUnmatched(line, mask, i + 1, depth + 1);
      } else {
        ClosersAreUnmatched(line, mask, i + 1, depth);
      }
    }
  }

  lemma ClosersStep(line: Line, mask: Mask, i: nat, depth: nat)
    requires |line| == |mask| && i <= |line|
    ensures i == |line| ==> ClosersFrom(line, mask, i) == [] && FirstUnmatched(line, mask, i, depth) == -1
    ensures i < |line| ==>
      var rest := ClosersFrom(line, mask, i + 1);
      if mask[i] == Keep && line[i] == CLOSE_PAREN then
        && ClosersFrom(line, mask, i) == rest + [i]
        && FirstUnmatched(line, mask, i, depth)
           == if depth == 0 then i else FirstUnmatched(line, mask, i + 1, depth - 1)
      else if mask[i] == Keep && line[i] == OPEN_PAREN then
        && ClosersFrom(line, mask, i) == (if |rest| > 0 then rest[..|rest| - 1] else rest)
        && FirstUnmatched(line, mask, i, depth) == FirstUnmatched(line, mask, i + 1, depth + 1)
      else
        && ClosersFrom(line, mask, i) == rest
        && FirstUnmatched(line, mask, i, depth) == FirstUnmatched(line, mask, i + 1, depth)
  {
  }

  // ---------------------------------------------------------------- the naive scans

  datatype Scan = Closes(at: nat) | ToTitle(at: nat) | Rejected

  /** A bare destination read once from left to right, counting parentheses. */
  function DepthScan(line: Line, mask: Mask, i: nat, depth: nat): (r: Scan)
    requires |line| == |mask| && i <= |line|
    ensures r.Closes? ==> i <= r.at < |line| && mask[r.at] == Keep && line[r.at] == CLOSE_PAREN
    ensures r.ToTitle? ==> i <= r.at < |line| && mask[r.at] == Keep && IsWhitespace(line[r.at])
    decreases |line| - i
  {
    if i == |line| then Rejected
    else if mask[i] != Keep then DepthScan(line, mask, i + 1, depth)
    else if line[i] == CLOSE_PAREN then
      if depth == 0 then Closes(i) else DepthScan(line, mask, i + 1, depth - 1)
    else if line[i] == OPEN_PAREN then DepthScan(line, mask, i + 1, depth + 1)
    else if IsWhitespace(line[i]) then if depth == 0 then ToTitle(i) else Rejected
    else DepthScan(line, mask, i + 1, depth)
  }

  /** An angle-bracketed destination: the first kept `<`, `>` or line break decides. */
  function AngleScan(line: Line, mask: Mask, i: nat): (r: Scan)
    requires |line| == |mask|
    ensures !r.ToTitle?
    ensures r.Closes? ==> i <= r.at < |line|
    decreases |line| - i
  {
    if i >= |line| then Rejected
    else if mask[i] != Keep then AngleScan(line, mask, i + 1)
    else if line[i] == ANGLE_CLOSE then Closes(i)
    else if line[i] == ANGLE_OPEN || line[i] == NEWLINE then Rejected
    else AngleScan(line, mask, i + 1)
  }

  /** A reference label: the first kept bracket decides. */
  function LabelScan(line: Line, mask: Mask, i: nat): (r: Scan)
    requires |line| == |mask|
    ensures !r.ToTitle?
    ensures r.Closes? ==> i <= r.at < |line| && mask[r.at] == Keep && line[r.at] == CLOSE_BRACKET
    decreases |line| - i
  {
    if i >= |line| then Rejected
    else if mask[i] != Keep then LabelScan(line, mask, i + 1)
    else if line[i] == CLOSE_BRACKET then Closes(i)
    else if line[i] == OPEN_BRACKET then Rejected
    else LabelScan(line, mask, i + 1)
  }

  /** A label starts at `from` and its closing bracket is at `e`: the first kept bracket there. */
  predicate EndsLabel(line: Line, mask: Mask, from: nat, e: int)
    requires |line| == |mask|
  {
    && from <= e < |line| && mask[e] == Keep && line[e] == CLOSE_BRACKET
    && forall k :: from <= k < e && mask[k] == Keep ==> line[k] != OPEN_BRACKET && line[k] != CLOSE_BRACKET
  }

  lemma {:induction false} LabelScanExactly(line: Line, mask: Mask, i: nat)
    requires |line| == |mask|
    ensures forall e :: EndsLabel(line, mask, i, e) <==>
      LabelScan(line, mask, i).Closes? && LabelScan(line, mask, i).at == e
    decreases |line| - i
  {
    if i < |line| {
      LabelScanExactly(line, mask, i + 1);
      var bracket := mask[i] == Keep && (line[i] == CLOSE_BRACKET || line[i] == OPEN_BRACKET);
      forall e
        ensures EndsLabel(line, mask, i, e) <==>
          if bracket then e == i && line[i] == CLOSE_BRACKET else EndsLabel(line, mask, i + 1, e)
      {
        assert bracket && i < e ==> !EndsLabel(line, mask, i, e);
      }
    }
  }

  /** What the code concludes from the nearest closing and the nearest forbidding character. */
  function NearestDecides(close: int, forbidden: int): Scan {
    if close < 0 then Rejected
    else if forbidden != -1 && forbidden < close then Rejected
    else Closes(close)
  }

  lemma {:induction false} AngleScanIsNearest(line: Line, mask: Mask, i: nat)
    requires |line| == |mask|
    ensures AngleScan(line, mask, i)
      == NearestDecides(NextMatch(line, mask, Only(ANGLE_CLOSE), i), NextMatch(line, mask, AngleOpenOrBreak, i))
    decreases |line| - i
  {
    if i < |line| {
      AngleScanIsNearest(line, mask, i + 1);
    }
  }

  lemma {:induction false} LabelScanIsNearest(line: Line, mask: Mask, i: nat)
    requires |line| == |mask|
    ensures LabelScan(line, mask, i)
      == NearestDecides(NextMatch(line, mask, Only(CLOSE_BRACKET), i), NextMatch(line, mask, Only(OPEN_BRACKET), i))
    decreases |line| - i
  {
    if i < |line| {
      LabelScanIsNearest(line, mask, i + 1);
    }
  }

  // ---------------------------------------------------------------- tables against scan

  /** The answer the code assembles from `closerAt`, `nextWhitespace` and `openParenBefore`. */
  function TableAnswer(closer: int, whitespace: int, openBefore: int, from: nat): Scan
    requires whitespace >= -1
  {
    if whitespace == -1 || (closer != -1 && whitespace > closer) then
      if closer < 0 then Rejected else Closes(closer)
    else if openBefore >= from then Rejected
    else ToTitle(whitespace)
  }

  /** Stack contents that the scan from `base` added to what was open before it. */
  predicate OpenedSince(s: seq<nat>, outer: seq<nat>, base: nat, depth: nat) {
    && |s| == |outer| + depth
    && outer <= s
    && forall k :: |outer| <= k < |s| ==> base <= s[k]
  }

  /** What one character does to the depth of a scan that has not ended. */
  function DepthAfter(line: Line, mask: Mask, i: nat, depth: nat): nat
    requires i < |line| == |mask|
    requires mask[i] == Keep && line[i] == CLOSE_PAREN ==> depth > 0
  {
    if mask[i] == Keep && line[i] == CLOSE_PAREN then depth - 1
    else if mask[i] == Keep && line[i] == OPEN_PAREN then depth + 1
    else depth
  }

  lemma OpenedStep(line: Line, mask: Mask, base: nat, i: nat, depth: nat, outer: seq<nat>)
    requires base <= i < |line| == |mask|
    requires mask[i] == Keep && line[i] == CLOSE_PAREN ==> depth > 0
    requires OpenedSince(OpensBefore(line, mask, i), outer, base, depth)
    ensures OpenedSince(OpensBefore(line, mask, i + 1), outer, base, DepthAfter(line, mask, i, depth))
  {
    var s := OpensBefore(line, mask, i);
    assert OpensBefore(line, mask, i + 1) ==
      if mask[i] == Keep && line[i] == OPEN_PAREN then s + [i]
      else if mask[i] == Keep && line[i] == CLOSE_PAREN && |s| > 0 then s[..|s| - 1]
      else s;
  }

  function ScanByTables(line: Line, mask: Mask, base: nat, i: nat, depth: nat): Scan
    requires |line| == |mask| && i <= |line|
  {
    var whitespace := NextMatch(line, mask, Whitespace, i);
    TableAnswer(FirstUnmatched(line, mask, i, depth), whitespace,
                if whitespace == -1 then -1 else Top(OpensBefore(line, mask, whitespace)), base)
  }

  lemma {:induction false} ScanFollowsTables(line: Line, mask: Mask, base: nat, i: nat, depth: nat, outer: seq<nat>)
    requires |line| == |mask| && base <= i <= |line|
    requires OpenedSince(OpensBefore(line, mask, i), outer, base, depth)
    requires forall k :: 0 <= k < |outer| ==> outer[k] < base
    ensures DepthScan(line, mask, i, depth) == ScanByTables(line, mask, base, i, depth)
    decreases |line| - i
  {
    if i == |line| {
    } else if mask[i] == Keep && line[i] == CLOSE_PAREN && depth == 0 {
    } else if mask[i] == Keep && IsWhitespace(line[i]) {
      var s := OpensBefore(line, mask, i);
      assert Top(s) >= base <==> depth > 0;
    } else {
      OpenedStep(line, mask, base, i, depth, outer);
      var next := DepthAfter(line, mask, i, depth);
      ScanFollowsTables(line, mask, base, i + 1, next, outer);
      assert NextMatch(line, mask, Whitespace, i) == NextMatch(line, mask, Whitespace, i + 1);
      assert FirstUnmatched(line, mask, i, depth) == FirstUnmatched(line, mask, i + 1, next);
      assert DepthScan(line, mask, i, depth) == DepthScan(line, mask, i + 1, next);
    }
  }

  lemma {:induction false} ScanAgrees(line: Line, a: Mask, b: Mask, i: nat, depth: nat)
    requires |line| == |a| && i <= |line| && AgreeFrom(a, b, i)
    ensures DepthScan(line, a, i, depth) == DepthScan(line, b, i, depth)
    decreases |line| - i
  {
    if i < |line| {
      if a[i] == Keep && line[i] == CLOSE_PAREN {
        if depth > 0 {
          ScanAgrees(line, a, b, i + 1, depth - 1);
        }
      } else if a[i] == Keep && line[i] == OPEN_PAREN {
        ScanAgrees(line, a, b, i + 1, depth + 1);
      } else {
        ScanAgrees(line, a, b, i + 1, depth);
      }
    }
  }

  /** The tables are built once, from `built`; the mask is written behind the cursor
      afterwards. The answer is still the depth scan of the current mask. */
  lemma BareDestinationIsDepthScan(line: Line, built: Mask, mask: Mask, from: nat)
    requires |line| == |built| && from <= |line| && AgreeFrom(built, mask, from)
    ensures
      var closer := if from < |line| then Top(ClosersFrom(line, built, from)) else -1;
      var whitespace := NextMatch(line, mask, Whitespace, from);
      var openBefore := if whitespace == -1 then -1 else Top(OpensBefore(line, built, whitespace));
      DepthScan(line, mask, from, 0) == TableAnswer(closer, whitespace, openBefore, from)
  {
    NextMatchAgrees(line, built, mask, Whitespace, from);
    ScanAgrees(line, built, mask, from, 0);
    ClosersAreUnmatched(line, built, from, 0);
    ScanFollowsTables(line, built, from, from, 0, OpensBefore(line, built, from));
  }
}
