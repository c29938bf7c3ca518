/** What the inline passes of the Markdown stripper share: UTF-16 code units, mask flags,
    the character classes their finders look for, and the left-to-right search that a
    finder stands for. */
module MarkdownBase {
  import opened JsText

  type CodeUnit = u: int | 0 <= u < 0x1_0000
  type Line = seq<CodeUnit>

  datatype Flag = Keep | Drop | Space | Literal
  type Mask = seq<Flag>

  const NEWLINE: CodeUnit := 0x0A
  const BANG: CodeUnit := 0x21
  const DOUBLE_QUOTE: CodeUnit := 0x22
  const SINGLE_QUOTE: CodeUnit := 0x27
  const OPEN_PAREN: CodeUnit := 0x28
  const CLOSE_PAREN: CodeUnit := 0x29
  const ANGLE_OPEN: CodeUnit := 0x3C
  const ANGLE_CLOSE: CodeUnit := 0x3E
  const OPEN_BRACKET: CodeUnit := 0x5B
  const BACKSLASH: CodeUnit := 0x5C
  const CLOSE_BRACKET: CodeUnit := 0x5D
  const BACKTICK: CodeUnit := 0x60

  predicate IsWhitespace(u: CodeUnit) {
    IsTrimmed(u)
  }

  predicate IsQuote(u: CodeUnit) {
    u == DOUBLE_QUOTE || u == SINGLE_QUOTE
  }

  /** The predicates handed to `monotoneFinder`. */
  datatype CharClass = Whitespace | NonWhitespace | Only(unit: CodeUnit) | AngleOpenOrBreak {
    predicate Matches(u: CodeUnit) {
      match this
      case Whitespace => IsWhitespace(u)
      case NonWhitespace => !IsWhitespace(u)
      case Only(unit) => u == unit
      case AngleOpenOrBreak => u == ANGLE_OPEN || u == NEWLINE
    }
  }

  predicate Hit(line: Line, mask: Mask, cls: CharClass, i: nat)
    requires i < |line| == |mask|
  {
    mask[i] == Keep && cls.Matches(line[i])
  }

  /** The first kept character of the class at or after `from`, or -1. */
  function NextMatch(line: Line, mask: Mask, cls: CharClass, from: nat): (r: int)
    requires |line| == |mask|
    ensures r == -1 || from <= r < |line|
    ensures r == -1 ==> forall k :: from <= k < |line| ==> !Hit(line, mask, cls, k)
    ensures r != -1 ==> Hit(line, mask, cls, r)
    ensures r != -1 ==> forall k :: from <= k < r ==> !Hit(line, mask, cls, k)
    decreases |line| - from
  {
    if from >= |line| then -1
    else if Hit(line, mask, cls, from) then from
    else NextMatch(line, mask, cls, from + 1)
  }

  /** Two masks that agree at `from` and everywhere to its right. */
  predicate AgreeFrom(a: Mask, b: Mask, from: nat) {
    |a| == |b| && forall k :: from <= k < |a| ==> a[k] == b[k]
  }

  lemma NextMatchAgrees(line: Line, a: Mask, b: Mask, cls: CharClass, from: nat)
    requires |line| == |a| && AgreeFrom(a, b, from)
    ensures NextMatch(line, a, cls, from) == NextMatch(line, b, cls, from)
  {
    var r, s := NextMatch(line, a, cls, from), NextMatch(line, b, cls, from);
    if r != -1 {
      assert Hit(line, b, cls, r);
    }
    if s != -1 {
      assert Hit(line, a, cls, s);
    }
  }

  /** `mask.fill(flag, from, to)` */
  function Fill(mask: Mask, flag: Flag, from: nat, to: nat): (r: Mask)
    ensures |r| == |mask|
    ensures forall k :: 0 <= k < |r| ==> r[k] == if from <= k < to then flag else mask[k]
  {
    seq(|mask|, k requires 0 <= k < |mask| => if from <= k < to then flag else mask[k])
  }

  /** A half-open stretch of the line, one pair of the flat lists given to `fillRanges`. */
  datatype Range = Range(from: nat, to: nat) {
    predicate Covers(p: int) { from <= p < to }
  }

  predicate Covered(ranges: seq<Range>, p: int) {
    exists k :: 0 <= k < |ranges| && ranges[k].Covers(p)
  }

  lemma CoveredAppend(ranges: seq<Range>, last: Range, p: int)
    ensures Covered(ranges + [last], p) <==> Covered(ranges, p) || last.Covers(p)
  {
    var all := ranges + [last];
    if Covered(ranges, p) {
      var k :| 0 <= k < |ranges| && ranges[k].Covers(p);
      assert all[k].Covers(p);
    }
    if last.Covers(p) {
      assert all[|ranges|].Covers(p);
    }
    if Covered(all, p) {
      var k :| 0 <= k < |all| && all[k].Covers(p);
      assert k == |ranges| || ranges[k].Covers(p);
    }
  }

  /** What the callers of `fillRanges` guarantee: the ends never decrease, and none is past
      the end of the mask. */
  predicate EndsNondecreasing(ranges: seq<Range>, length: nat) {
    && (forall i, j :: 0 <= i < j < |ranges| ==> ranges[i].to <= ranges[j].to)
    && (forall i :: 0 <= i < |ranges| ==> ranges[i].to <= length)
  }

  method FillArray(mask: array<Flag>, flag: Flag, from: nat, to: nat)
    modifies mask
    ensures mask[..] == Fill(old(mask[..]), flag, from, to)
  {
    var i := from;
    while i < to && i < mask.Length
      invariant from <= i
      invariant i <= to || i == from
      invariant forall k :: 0 <= k < mask.Length ==>
        mask[k] == if from <= k < i then flag else old(mask[k])
    {
      mask[i] := flag;
      i := i + 1;
    }
    assert forall k :: 0 <= k < mask.Length ==>
      mask[k] == if from <= k < to then flag else old(mask[k]);
  }

  /** The watermark painter. Walking the ranges from the last to the first and painting each
      only below the lowest start seen so far still paints exactly their union. */
  method FillRanges(mask: array<Flag>, flag: Flag, ranges: seq<Range>)
    requires EndsNondecreasing(ranges, mask.Length)
    modifies mask
    ensures forall p :: 0 <= p < mask.Length ==>
      mask[p] == if Covered(ranges, p) then flag else old(mask[p])
  {
    var watermark := mask.Length;
    var index := |ranges|;
    while index > 0
      invariant 0 <= index <= |ranges|
      invariant 0 <= watermark <= mask.Length
      invariant forall p :: 0 <= p < mask.Length ==>
        mask[p] == if Covered(ranges[index..], p) then flag else old(mask[p])
      invariant watermark < mask.Length ==>
        exists k :: index <= k < |ranges| && ranges[k].from == watermark
    {
      index := index - 1;
      var from, to := ranges[index].from, ranges[index].to;
      ghost var before := mask[..];
      if from < watermark {
        FillArray(mask, flag, from, if to < watermark then to else watermark);
      }
      forall p | 0 <= p < mask.Length
        ensures mask[p] == if Covered(ranges[index..], p) then flag else old(mask[p])
      {
        CoveredPrepend(ranges, index, p);
        WatermarkCovers(ranges, index, watermark, mask.Length, p);
        assert before[p] == if Covered(ranges[index + 1..], p) then flag else old(mask[p]);
      }
      if from < watermark {
        watermark := from;
      }
    }
    assert ranges[0..] == ranges;
  }

  lemma CoveredPrepend(ranges: seq<Range>, index: nat, p: int)
    requires index < |ranges|
    ensures Covered(ranges[index..], p) <==> ranges[index].Covers(p) || Covered(ranges[index + 1..], p)
  {
    if Covered(ranges[index..], p) {
      var k :| 0 <= k < |ranges[index..]| && ranges[index..][k].Covers(p);
      assert k == 0 || ranges[index + 1..][k - 1].Covers(p);
    }
    if ranges[index].Covers(p) {
      assert ranges[index..][0].Covers(p);
    }
    if Covered(ranges[index + 1..], p) {
      var k :| 0 <= k < |ranges[index + 1..]| && ranges[index + 1..][k].Covers(p);
      assert ranges[index..][k + 1].Covers(p);
    }
  }

  /** The part of a range that the painter skips is already painted. */
  lemma WatermarkCovers(ranges: seq<Range>, index: nat, watermark: nat, length: nat, p: int)
    requires index < |ranges| && EndsNondecreasing(ranges, length)
    requires watermark < length ==>
      exists k :: index < k < |ranges| && ranges[k].from == watermark
    ensures watermark <= p < length && ranges[index].Covers(p) ==> Covered(ranges[index + 1..], p)
  {
    if watermark <= p < length && ranges[index].Covers(p) {
      var k :| index < k < |ranges| && ranges[k].from == watermark;
      assert ranges[index + 1..][k - index - 1].Covers(p);
    }
  }
}
