/** What the HTML pass does, said of the line as it was before: which stretches are comments,
    autolinks and tags, and what becomes of each character. */
module MarkdownHtmlRule {
  import opened MarkdownBase
  import opened MarkdownHtml

  /** A stretch that the pass rewrites: an autolink, whose inside is shown, or a comment or tag. */
  datatype Piece = Piece(start: nat, end: nat, shown: bool) {
    predicate Covers(p: int) { start <= p < end }

    /** Comments and tags become spaces; an autolink loses its brackets and is literal inside. */
    function FlagAt(p: int): Flag {
      if !shown then Space else if p == start || p == end - 1 then Drop else Literal
    }
  }

  predicate Opens(line: Line, mask: Mask, i: nat)
    requires |line| == |mask|
  {
    Reads(line, mask, i, ANGLE_OPEN)
  }

  predicate ClosesComment(line: Line, mask: Mask, i: nat, k: nat)
    requires |line| == |mask|
  {
    StartsAt(line, COMMENT_OPEN, i) && i + 4 <= k && NeedleHit(line, mask, COMMENT_CLOSE, k)
  }

  /** A comment from `i` up to `end`, closed by the first `-->` behind its opening. */
  predicate IsComment(line: Line, mask: Mask, i: nat, end: nat)
    requires |line| == |mask|
  {
    && end >= 3 && ClosesComment(line, mask, i, end - 3)
    && forall k :: 0 <= k < end - 3 ==> !ClosesComment(line, mask, i, k)
  }

  /** No comment starts at `i`, but the next character could start a tag or a scheme. */
  ghost predicate MayBeTag(line: Line, mask: Mask, i: nat)
    requires |line| == |mask|
  {
    && Opens(line, mask, i) && (forall k: nat :: !ClosesComment(line, mask, i, k))
    && i + 1 < |line| && (IsAsciiLetter(line[i + 1]) || line[i + 1] == SLASH)
  }

  predicate FirstClose(line: Line, mask: Mask, i: nat, c: nat)
    requires |line| == |mask|
  {
    i < c && Reads(line, mask, c, ANGLE_CLOSE) && forall k :: i < k < c ==> !Reads(line, mask, k, ANGLE_CLOSE)
  }

  /** Up to the first `>` it is an autolink. */
  ghost predicate IsLinkTo(line: Line, mask: Mask, i: nat, end: nat)
    requires |line| == |mask|
  {
    MayBeTag(line, mask, i) && end > 0 && FirstClose(line, mask, i, end - 1) && IsAutolink(line[i + 1..end - 1])
  }

  /** It is a tag, and what lies before the first `>` is no autolink. */
  ghost predicate IsTag(line: Line, mask: Mask, i: nat, end: nat)
    requires |line| == |mask|
  {
    && MayBeTag(line, mask, i) && end > 0 && TagShape(line, mask, i + 1, end - 1)
    && forall c: nat :: FirstClose(line, mask, i, c) ==> !IsAutolink(line[i + 1..c])
  }

  ghost predicate IsPiece(line: Line, mask: Mask, q: Piece)
    requires |line| == |mask|
  {
    if q.shown then IsLinkTo(line, mask, q.start, q.end)
    else Opens(line, mask, q.start) && (IsComment(line, mask, q.start, q.end) || IsTag(line, mask, q.start, q.end))
  }

  /** Here the pass gives up: something like a tag opens, and no `>` is left. */
  ghost predicate GivesUp(line: Line, mask: Mask, i: nat)
    requires |line| == |mask|
  {
    MayBeTag(line, mask, i) && forall c: nat :: !FirstClose(line, mask, i, c)
  }

  predicate Inside(pieces: seq<Piece>, p: int) {
    exists k :: 0 <= k < |pieces| && pieces[k].start < p < pieces[k].end
  }

  /** `q` is rewritten: it is a piece, no other one reaches over its start, and the pass has not
      given up before it. */
  ghost predicate Rewritten(line: Line, mask: Mask, pieces: seq<Piece>, index: nat, q: Piece)
    requires |line| == |mask|
  {
    && index <= q.start && IsPiece(line, mask, q) && !Inside(pieces, q.start)
    && forall i: nat :: index <= i < q.start && GivesUp(line, mask, i) ==> Inside(pieces, i)
  }

  // ---------------------------------------------------------------- one position

  lemma NeedleAt(line: Line, mask: Mask, i: nat)
    requires |line| == |mask|
    ensures NeedleHit(line, mask, [ANGLE_CLOSE], i) <==> Reads(line, mask, i, ANGLE_CLOSE)
  {
    if i < |line| {
      assert line[i..i + 1] == [line[i]];
    }
  }

  /** The first kept `>` behind `i`, as the pass looks for it. */
  lemma CloseMeans(line: Line, mask: Mask, i: nat, c: nat)
    requires |line| == |mask|
    ensures FirstClose(line, mask, i, c) <==> NextNeedle(line, mask, [ANGLE_CLOSE], i + 1) == c
  {
    forall k: nat
      ensures NeedleHit(line, mask, [ANGLE_CLOSE], k) <==> Reads(line, mask, k, ANGLE_CLOSE)
    {
      NeedleAt(line, mask, k);
    }
    var r := NextNeedle(line, mask, [ANGLE_CLOSE], i + 1);
    hide NeedleHit, Reads, NextNeedle;
  }

  lemma CommentMeans(line: Line, mask: Mask, i: nat, end: nat)
    requires |line| == |mask| && StartsAt(line, COMMENT_OPEN, i)
    ensures IsComment(line, mask, i, end) <==> NextNeedle(line, mask, COMMENT_CLOSE, i + 4) == end - 3 && end >= 3
  {
    var r := NextNeedle(line, mask, COMMENT_CLOSE, i + 4);
    hide StartsAt, NextNeedle;
    if r != -1 {
      assert ClosesComment(line, mask, i, r);
    }
  }

  /** Whether a comment starts at `i`, as the pass finds it out. */
  lemma NoCommentMeans(line: Line, mask: Mask, i: nat)
    requires |line| == |mask|
    ensures (forall k: nat :: !ClosesComment(line, mask, i, k)) <==>
      !StartsAt(line, COMMENT_OPEN, i) || NextNeedle(line, mask, COMMENT_CLOSE, i + 4) == -1
  {
    var r := NextNeedle(line, mask, COMMENT_CLOSE, i + 4);
    hide StartsAt, NextNeedle;
    if r != -1 && StartsAt(line, COMMENT_OPEN, i) {
      assert ClosesComment(line, mask, i, r);
    }
  }

  /** What the pass rewrites from `i` on, and when it stops there. */
  predicate Acts(line: Line, mask: Mask, q: Piece)
    requires |line| == |mask|
  {
    && q.start < |line|
    && match ActionAt(line, mask, q.start)
       case Hide(end) => !q.shown && q.end == end
       case Unwrap(close) => q.shown && q.end == close + 1
       case _ => false
  }

  lemma ActionMeans(line: Line, mask: Mask, q: Piece)
    requires |line| == |mask|
    ensures IsPiece(line, mask, q) <==> Acts(line, mask, q)
  {
    hide StartsAt, NextNeedle, IsAutolink, TagEnd, TagShape, IsComment, ClosesComment, FirstClose;
    var i := q.start;
    if Opens(line, mask, i) {
      NoCommentMeans(line, mask, i);
      forall c: nat
        ensures FirstClose(line, mask, i, c) <==> NextNeedle(line, mask, [ANGLE_CLOSE], i + 1) == c
      {
        CloseMeans(line, mask, i, c);
      }
      if StartsAt(line, COMMENT_OPEN, i) {
        CommentMeans(line, mask, i, q.end);
      } else {
        NoComment(line, mask, i, q.end);
      }
      if q.end > 0 {
        TagEndExactly(line, mask, i + 1, q.end - 1);
        if TagEnd(line, mask, i + 1) == q.end - 1 {
          NeedleAt(line, mask, q.end - 1);
          assert NextNeedle(line, mask, [ANGLE_CLOSE], i + 1) != -1;
        }
      }
      if MayBeTag(line, mask, i) {
        MayBeTagMeans(line, mask, q);
      }
    }
  }

  lemma MayBeTagMeans(line: Line, mask: Mask, q: Piece)
    requires |line| == |mask| && MayBeTag(line, mask, q.start)
    requires forall c: nat ::
      FirstClose(line, mask, q.start, c) <==> NextNeedle(line, mask, [ANGLE_CLOSE], q.start + 1) == c
    requires q.end > 0 ==>
      (TagEnd(line, mask, q.start + 1) == q.end - 1 <==> TagShape(line, mask, q.start + 1, q.end - 1))
    requires q.end > 0 && TagEnd(line, mask, q.start + 1) == q.end - 1 ==>
      NextNeedle(line, mask, [ANGLE_CLOSE], q.start + 1) != -1
    ensures IsPiece(line, mask, q) <==> Acts(line, mask, q)
  {
    hide StartsAt, NextNeedle, IsAutolink, TagEnd, TagShape, ClosesComment, FirstClose;
    NoCommentMeans(line, mask, q.start);
    NeedleRange(line, mask, [ANGLE_CLOSE], q.start + 1);
    var close := NextNeedle(line, mask, [ANGLE_CLOSE], q.start + 1);
    assert close != -1 ==> FirstClose(line, mask, q.start, close);
    assert q.end >= 3 ==> !ClosesComment(line, mask, q.start, q.end - 3);
  }

  lemma NoComment(line: Line, mask: Mask, i: nat, end: nat)
    requires |line| == |mask| && !StartsAt(line, COMMENT_OPEN, i)
    ensures !IsComment(line, mask, i, end)
  {
  }

  lemma StopMeans(line: Line, mask: Mask, i: nat)
    requires |line| == |mask|
    ensures GivesUp(line, mask, i) <==> i < |line| && ActionAt(line, mask, i) == Stop
  {
    hide StartsAt, NextNeedle, IsAutolink, TagEnd, ClosesComment, FirstClose;
    NoCommentMeans(line, mask, i);
    forall c: nat
      ensures FirstClose(line, mask, i, c) <==> NextNeedle(line, mask, [ANGLE_CLOSE], i + 1) == c
    {
      CloseMeans(line, mask, i, c);
    }
    if MayBeTag(line, mask, i) {
      var r := NextNeedle(line, mask, [ANGLE_CLOSE], i + 1);
      NeedleRange(line, mask, [ANGLE_CLOSE], i + 1);
      assert r != -1 ==> FirstClose(line, mask, i, r);
    }
  }

  lemma NeedleRange(line: Line, mask: Mask, needle: Line, from: nat)
    requires |line| == |mask|
    ensures NextNeedle(line, mask, needle, from) >= -1
  {
  }

  // ---------------------------------------------------------------- what is written behind

  lemma {:induction false} SkipAgrees(line: Line, a: Mask, b: Mask, run: Run, i: nat)
    requires |line| == |a| && AgreeFrom(a, b, i)
    ensures Skip(line, a, run, i) == Skip(line, b, run, i)
    decreases |line| - i
  {
    if i < |line| {
      SkipAgrees(line, a, b, run, i + 1);
    }
  }

  lemma ValueEndAgrees(line: Line, a: Mask, b: Mask, i: nat)
    requires |line| == |a| && AgreeFrom(a, b, i)
    ensures ValueEnd(line, a, i) == ValueEnd(line, b, i)
  {
    hide Skip;
    if i < |line| {
      SkipAgrees(line, a, b, Until(line[i]), i + 1);
    }
    SkipAgrees(line, a, b, Unquoted, i);
  }

  lemma ReadsAgrees(line: Line, a: Mask, b: Mask, i: nat, k: nat, u: CodeUnit)
    requires |line| == |a| && AgreeFrom(a, b, i) && i <= k
    ensures Reads(line, a, k, u) <==> Reads(line, b, k, u)
    ensures Kept(a, k) <==> Kept(b, k)
  {
  }

  lemma AttributeEndAgrees(line: Line, a: Mask, b: Mask, at: nat)
    requires at < |line| == |a| && AgreeFrom(a, b, at) && Kept(a, at)
    ensures Kept(b, at) && AttributeEnd(line, a, at) == AttributeEnd(line, b, at)
  {
    hide Skip, ValueEnd;
    var name := Skip(line, a, AttributeName, at + 1);
    SkipAgrees(line, a, b, AttributeName, at + 1);
    var equals := Skip(line, a, Blank, name);
    SkipAgrees(line, a, b, Blank, name);
    SkipAgrees(line, a, b, Blank, equals + 1);
    ValueEndAgrees(line, a, b, Skip(line, a, Blank, equals + 1));
  }

  lemma {:induction false} AttributesEndAgrees(line: Line, a: Mask, b: Mask, i: nat)
    requires |line| == |a| && AgreeFrom(a, b, i)
    ensures AttributesEnd(line, a, i) == AttributesEnd(line, b, i)
    decreases |line| - i
  {
    hide Skip, AttributeEnd;
    var at := Skip(line, a, Blank, i);
    SkipAgrees(line, a, b, Blank, i);
    if i < at < |line| && Kept(a, at) {
      AttributeEndAgrees(line, a, b, at);
      if AttributeEnd(line, a, at) != -1 {
        AttributesEndAgrees(line, a, b, AttributeEnd(line, a, at));
      }
    }
  }

  lemma TagEndAgrees(line: Line, a: Mask, b: Mask, from: nat)
    requires |line| == |a| && AgreeFrom(a, b, from)
    ensures TagEnd(line, a, from) == TagEnd(line, b, from)
  {
    hide Skip, AttributesEnd;
    var start := if from < |line| && line[from] == SLASH then from + 1 else from;
    SkipAgrees(line, a, b, TagName, start);
    var name := Skip(line, a, TagName, start);
    SkipAgrees(line, a, b, Blank, name);
    AttributesEndAgrees(line, a, b, name);
  }

  lemma NeedleAgrees(line: Line, a: Mask, b: Mask, needle: Line, from: nat)
    requires |line| == |a| && AgreeFrom(a, b, from)
    ensures NextNeedle(line, a, needle, from) == NextNeedle(line, b, needle, from)
  {
    forall k | from <= k < |line|
      ensures NeedleHit(line, a, needle, k) <==> NeedleHit(line, b, needle, k)
    {
    }
    hide NeedleHit;
    NeedleUnique(line, b, needle, from, NextNeedle(line, a, needle, from));
  }

  lemma ActionAgrees(line: Line, a: Mask, b: Mask, index: nat)
    requires |line| == |a| && index < |line| && AgreeFrom(a, b, index)
    ensures ActionAt(line, a, index) == ActionAt(line, b, index)
  {
    hide NextNeedle, TagEnd, IsAutolink, StartsAt;
    NeedleAgrees(line, a, b, COMMENT_CLOSE, index + 4);
    NeedleAgrees(line, a, b, [ANGLE_CLOSE], index + 1);
    TagEndAgrees(line, a, b, index + 1);
  }

  // ---------------------------------------------------------------- the whole line

  /** The pieces that the pass rewrites from `index` on. */
  function Pieces(line: Line, mask: Mask, index: nat): (pieces: seq<Piece>)
    requires |line| == |mask| && index <= |line|
    ensures forall k :: 0 <= k < |pieces| ==> index <= pieces[k].start < pieces[k].end <= |line|
    decreases |line| - index
  {
    if index == |line| then []
    else
      match ActionAt(line, mask, index)
      case Stop => []
      case Pass => Pieces(line, mask, index + 1)
      case Hide(end) => [Piece(index, end, false)] + Pieces(line, mask, end)
      case Unwrap(close) => [Piece(index, close + 1, true)] + Pieces(line, mask, close + 1)
  }

  /** From `index` on each character is as its piece says, or as before. */
  predicate Painted(mask: Mask, after: Mask, pieces: seq<Piece>, index: nat) {
    && |after| == |mask|
    && (forall k, p :: 0 <= k < |pieces| && index <= p < |mask| && pieces[k].Covers(p) ==>
          after[p] == pieces[k].FlagAt(p))
    && (forall p :: index <= p < |mask| && Bare(pieces, p) ==> after[p] == mask[p])
  }

  predicate Bare(pieces: seq<Piece>, p: int) {
    forall k :: 0 <= k < |pieces| ==> !pieces[k].Covers(p)
  }

  lemma PaintedBefore(mask: Mask, after: Mask, first: Piece, rest: seq<Piece>)
    requires Painted(mask, after, rest, first.end) && first.start < first.end <= |mask|
    requires forall k :: 0 <= k < |rest| ==> first.end <= rest[k].start
    requires forall p :: first.start <= p < first.end ==> after[p] == first.FlagAt(p)
    ensures Painted(mask, after, [first] + rest, first.start)
  {
    var pieces := [first] + rest;
    forall k, p | 0 <= k < |pieces| && first.start <= p < |mask| && pieces[k].Covers(p)
      ensures after[p] == pieces[k].FlagAt(p)
    {
      if k > 0 {
        assert pieces[k] == rest[k - 1];
      }
    }
    forall p | first.start <= p < |mask| && Bare(pieces, p)
      ensures after[p] == mask[p]
    {
      assert !pieces[0].Covers(p);
      assert forall k :: 0 <= k < |rest| ==> rest[k] == pieces[k + 1];
      assert Bare(rest, p);
    }
  }

  lemma {:induction false} PassPaints(line: Line, mask: Mask, current: Mask, index: nat)
    requires |line| == |mask| && index <= |line| && AgreeFrom(mask, current, index)
    ensures Painted(mask, HtmlMarked(line, current, index), Pieces(line, mask, index), index)
    decreases |line| - index
  {
    hide ActionAt, Painted;
    var after := HtmlMarked(line, current, index);
    if index == |line| {
      NothingPainted(mask, after, index);
    } else {
      ActionAgrees(line, mask, current, index);
      var a := ActionAt(line, mask, index);
      if a == Stop {
        NothingPainted(mask, after, index);
      } else {
        var next := NextIndex(index, a);
        PassPaints(line, mask, After(current, index, a), next);
        if a == Pass {
          PaintedPast(mask, after, Pieces(line, mask, next), index);
        } else {
          PaintedBefore(mask, after, Piece(index, next, a.Unwrap?), Pieces(line, mask, next));
        }
      }
    }
  }

  lemma NothingPainted(mask: Mask, after: Mask, index: nat)
    requires AgreeFrom(mask, after, index)
    ensures Painted(mask, after, [], index)
  {
  }

  lemma PaintedPast(mask: Mask, after: Mask, pieces: seq<Piece>, index: nat)
    requires index < |mask| && Painted(mask, after, pieces, index + 1) && after[index] == mask[index]
    requires forall k :: 0 <= k < |pieces| ==> index < pieces[k].start
    ensures Painted(mask, after, pieces, index)
  {
  }

  /** What is rewritten from `index` on is what the rule says. */
  lemma {:induction false} PiecesExactly(line: Line, mask: Mask, index: nat, q: Piece)
    requires |line| == |mask| && index <= |line|
    ensures q in Pieces(line, mask, index) <==> Rewritten(line, mask, Pieces(line, mask, index), index, q)
    decreases |line| - index
  {
    hide ActionAt, IsPiece, GivesUp;
    ActionMeans(line, mask, q);
    StopMeans(line, mask, index);
    if index < |line| {
      var a := ActionAt(line, mask, index);
      if a != Stop {
        var next := NextIndex(index, a);
        PiecesExactly(line, mask, next, q);
        if a != Pass {
          OneMorePiece(line, mask, Piece(index, next, a.Unwrap?), Pieces(line, mask, next), q);
        }
      }
    }
  }

  lemma OneMorePiece(line: Line, mask: Mask, first: Piece, rest: seq<Piece>, q: Piece)
    requires |line| == |mask| && first.start < first.end && !GivesUp(line, mask, first.start)
    requires forall k :: 0 <= k < |rest| ==> first.end <= rest[k].start
    requires q.start == first.start ==> (IsPiece(line, mask, q) <==> q == first)
    requires q in rest <==> Rewritten(line, mask, rest, first.end, q)
    ensures q in [first] + rest <==> Rewritten(line, mask, [first] + rest, first.start, q)
  {
    hide IsPiece, GivesUp;
    var pieces := [first] + rest;
    assert pieces[0] == first;
    forall p: int
      ensures Inside(pieces, p) <==> first.start < p < first.end || Inside(rest, p)
    {
      InsideMore(first, rest, p);
    }
    assert first.start <= q.start && first.end > q.start ==> !Inside(rest, q.start);
  }

  lemma InsideMore(first: Piece, rest: seq<Piece>, p: int)
    ensures Inside([first] + rest, p) <==> first.start < p < first.end || Inside(rest, p)
  {
    var pieces := [first] + rest;
    assert pieces[0] == first;
    assert forall k :: 0 <= k < |rest| ==> pieces[k + 1] == rest[k];
    if Inside(pieces, p) {
      var k :| 0 <= k < |pieces| && pieces[k].start < p < pieces[k].end;
      assert k > 0 ==> pieces[k] == rest[k - 1];
    }
    if Inside(rest, p) {
      var k :| 0 <= k < |rest| && rest[k].start < p < rest[k].end;
      assert pieces[k + 1] == rest[k];
    }
  }

  /** The HTML pass on a whole line. There is one list of pieces, comments, autolinks and tags as
      they are defined, none starting within another or behind a place where the pass gives up; an
      autolink loses its brackets and stays as literal text, a comment or tag becomes spaces, and
      every other character is as before. */
  lemma HtmlExactly(line: Line, mask: Mask)
    requires |line| == |mask|
    ensures Painted(mask, HtmlMarked(line, mask, 0), Pieces(line, mask, 0), 0)
    ensures forall q :: q in Pieces(line, mask, 0) <==> Rewritten(line, mask, Pieces(line, mask, 0), 0, q)
  {
    PassPaints(line, mask, mask, 0);
    forall q
      ensures q in Pieces(line, mask, 0) <==> Rewritten(line, mask, Pieces(line, mask, 0), 0, q)
    {
      PiecesExactly(line, mask, 0, q);
    }
  }
}
