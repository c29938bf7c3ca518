/** What is a link, said of the line and of the finished list of links, without any scan: which
    brackets belong together, where a destination or a label ends, and that the pass finds
    exactly that. */
module MarkdownLinkRule {
  import opened MarkdownBase
  import opened MarkdownDestination
  import opened MarkdownLinks
  import opened MarkdownTitles

  // ---------------------------------------------------------------- where a destination ends

  predicate Kept(line: Line, mask: Mask, k: int, u: CodeUnit)
    requires |line| == |mask|
  {
    0 <= k < |line| && mask[k] == Keep && line[k] == u
  }

  /** The first kept character of the class from `from` on is at `k`. */
  predicate First(line: Line, mask: Mask, cls: CharClass, from: nat, k: int)
    requires |line| == |mask|
  {
    from <= k < |line| && Hit(line, mask, cls, k) && forall j :: from <= j < k ==> !Hit(line, mask, cls, j)
  }

  /** Opening minus closing parentheses among the kept characters from `from` up to `to`. */
  function Depth(line: Line, mask: Mask, from: nat, to: nat): int
    requires |line| == |mask| && to <= |line|
  {
    if to <= from then 0
    else
      Depth(line, mask, from, to - 1)
      + if Kept(line, mask, to - 1, OPEN_PAREN) then 1 else if Kept(line, mask, to - 1, CLOSE_PAREN) then -1 else 0
  }

  /** A bare destination may reach from `from` up to `to`: no blank, and no `)` too many. */
  predicate Bare(line: Line, mask: Mask, from: nat, to: int)
    requires |line| == |mask|
  {
    && from <= to < |line|
    && (forall k :: from <= k < to ==> !Hit(line, mask, Whitespace, k))
    && (forall k :: from <= k <= to ==> Depth(line, mask, from, k) >= 0)
  }

  /** A destination in angle brackets, from `<` to the `>` at `to`. */
  predicate Angled(line: Line, mask: Mask, from: nat, to: int)
    requires |line| == |mask|
  {
    && Kept(line, mask, from, ANGLE_OPEN) && from < to && Kept(line, mask, to, ANGLE_CLOSE)
    && forall k :: from < k < to && mask[k] == Keep ==>
         line[k] != ANGLE_OPEN && line[k] != ANGLE_CLOSE && line[k] != NEWLINE
  }

  /** A title between the quotes at `t` and `q`, the first character from `cursor` on being `t`,
      and behind it `)` at `e`. */
  predicate Titled(line: Line, mask: Mask, cursor: nat, t: nat, q: nat, e: int)
    requires |line| == |mask|
  {
    && First(line, mask, NonWhitespace, cursor, t) && IsQuote(line[t])
    && First(line, mask, Only(line[t]), t + 1, q)
    && First(line, mask, NonWhitespace, q + 1, e) && line[e] == CLOSE_PAREN
  }

  /** From `cursor` on: blanks, an optional title, blanks, and `)` at `e`. */
  ghost predicate EndsTail(line: Line, mask: Mask, cursor: nat, e: int)
    requires |line| == |mask|
  {
    || (First(line, mask, NonWhitespace, cursor, e) && line[e] == CLOSE_PAREN)
    || exists t: nat, q: nat :: Titled(line, mask, cursor, t, q, e)
  }

  /** Behind the destination that starts at `from` the title tail starts at `cursor`. */
  predicate TailAt(line: Line, mask: Mask, from: nat, cursor: nat)
    requires |line| == |mask|
  {
    if Kept(line, mask, from, ANGLE_OPEN) then cursor > 0 && Angled(line, mask, from, cursor - 1)
    else
      Bare(line, mask, from, cursor) && Hit(line, mask, Whitespace, cursor) && Depth(line, mask, from, cursor) == 0
  }

  /** The destination that starts at `from` has its closing parenthesis at `e`. */
  ghost predicate EndsDestination(line: Line, mask: Mask, from: nat, e: int)
    requires |line| == |mask|
  {
    || (&& !Kept(line, mask, from, ANGLE_OPEN) && Bare(line, mask, from, e) && Kept(line, mask, e, CLOSE_PAREN)
        && Depth(line, mask, from, e) == 0)
    || exists cursor: nat :: TailAt(line, mask, from, cursor) && EndsTail(line, mask, cursor, e)
  }

  lemma FirstExactly(line: Line, mask: Mask, cls: CharClass, from: nat, k: int)
    requires |line| == |mask|
    ensures First(line, mask, cls, from, k) <==> k != -1 && NextMatch(line, mask, cls, from) == k
  {
  }

  lemma TailMeans(line: Line, mask: Mask, cursor: nat, e: int)
    requires |line| == |mask|
    ensures EndsTail(line, mask, cursor, e) <==> e != -1 && NaiveTail(line, mask, cursor) == e
  {
    hide NextMatch, First, CharClass.Matches;
    var t := NextMatch(line, mask, NonWhitespace, cursor);
    forall k ensures First(line, mask, NonWhitespace, cursor, k) <==> k != -1 && k == t {
      FirstExactly(line, mask, NonWhitespace, cursor, k);
    }
    if t != -1 && IsQuote(line[t]) {
      var quote, behind := Only(line[t]), t + 1;
      var q := NextMatch(line, mask, quote, behind);
      forall k ensures First(line, mask, quote, behind, k) <==> k != -1 && k == q {
        FirstExactly(line, mask, quote, behind, k);
      }
      if q != -1 {
        FirstExactly(line, mask, NonWhitespace, q + 1, e);
        assert Titled(line, mask, cursor, t, q, e) <==>
          First(line, mask, NonWhitespace, q + 1, e) && line[e] == CLOSE_PAREN;
      }
    }
  }

  predicate Clear(line: Line, mask: Mask, from: nat, to: nat)
    requires |line| == |mask| && to <= |line|
  {
    && (forall k :: from <= k < to ==> !Hit(line, mask, Whitespace, k))
    && (forall k :: from <= k <= to ==> Depth(line, mask, from, k) >= 0)
  }

  /** The scan that counts parentheses, met on its way at `i`, ends where the count says. */
  lemma {:induction false} DepthScanMeans(line: Line, mask: Mask, from: nat, i: nat, e: nat)
    requires |line| == |mask| && from <= i <= |line| && Clear(line, mask, from, i)
    ensures var r := DepthScan(line, mask, i, Depth(line, mask, from, i));
      && (r == Closes(e) <==>
            i <= e && Bare(line, mask, from, e) && Kept(line, mask, e, CLOSE_PAREN) && Depth(line, mask, from, e) == 0)
      && (r == ToTitle(e) <==>
            i <= e && Bare(line, mask, from, e) && Hit(line, mask, Whitespace, e) && Depth(line, mask, from, e) == 0)
    decreases |line| - i
  {
    if i < |line| {
      var depth := Depth(line, mask, from, i);
      var next := Depth(line, mask, from, i + 1);
      var blank := Hit(line, mask, Whitespace, i);
      assert blank ==> line[i] != OPEN_PAREN && line[i] != CLOSE_PAREN;
      if next < 0 || blank {
        assert DepthScan(line, mask, i, depth) ==
          if next < 0 then Closes(i) else if depth == 0 then ToTitle(i) else Rejected;
        assert i < e ==> !Bare(line, mask, from, e);
        assert i == e ==> Bare(line, mask, from, e);
      } else {
        DepthScanMeans(line, mask, from, i + 1, e);
      }
    }
  }

  lemma {:induction false} AngleScanMeans(line: Line, mask: Mask, from: nat, i: nat, to: int)
    requires |line| == |mask| && Kept(line, mask, from, ANGLE_OPEN) && from < i
    requires forall k :: from < k < i && k < |line| && mask[k] == Keep ==>
      line[k] != ANGLE_OPEN && line[k] != ANGLE_CLOSE && line[k] != NEWLINE
    ensures var r := AngleScan(line, mask, i);
      r.Closes? && r.at == to <==> i <= to && Angled(line, mask, from, to)
    decreases |line| - i
  {
    if i < |line| {
      if mask[i] == Keep && (line[i] == ANGLE_OPEN || line[i] == ANGLE_CLOSE || line[i] == NEWLINE) {
        assert i < to ==> !Angled(line, mask, from, to);
      } else {
        AngleScanMeans(line, mask, from, i + 1, to);
      }
    }
  }

  /** The beginning of a destination, as it is read and as it is defined. */
  lemma LeadMeans(line: Line, mask: Mask, from: nat, k: nat)
    requires |line| == |mask| && from <= |line|
    ensures var r := Lead(line, mask, from);
      && (r == ToTitle(k) <==> TailAt(line, mask, from, k))
      && (r == Closes(k) <==>
            && !Kept(line, mask, from, ANGLE_OPEN) && Bare(line, mask, from, k) && Kept(line, mask, k, CLOSE_PAREN)
            && Depth(line, mask, from, k) == 0)
  {
    hide AngleScan, DepthScan;
    if Kept(line, mask, from, ANGLE_OPEN) {
      AngleScanMeans(line, mask, from, from + 1, k - 1);
    } else {
      DepthScanMeans(line, mask, from, from, k);
    }
  }

  /** A destination ends where its definition says, when every search is made afresh. */
  lemma DestinationMeans(line: Line, mask: Mask, from: nat, e: nat)
    requires |line| == |mask| && from <= |line|
    ensures NaiveDestination(line, mask, from) == e <==> EndsDestination(line, mask, from, e)
  {
    hide Lead, Kept, Bare, Depth, TailAt, EndsTail, NaiveTail;
    forall k: nat
      ensures Lead(line, mask, from) == ToTitle(k) <==> TailAt(line, mask, from, k)
    {
      LeadMeans(line, mask, from, k);
    }
    LeadMeans(line, mask, from, e);
    forall cursor: nat
      ensures EndsTail(line, mask, cursor, e) <==> NaiveTail(line, mask, cursor) == e
    {
      TailMeans(line, mask, cursor, e);
    }
  }

  /** Behind the `]` at `close` a destination or a label starts that ends at `e`. */
  ghost predicate Ends(line: Line, mask: Mask, close: nat, e: int)
    requires |line| == |mask|
  {
    || (Kept(line, mask, close + 1, OPEN_PAREN) && close + 2 <= |line| && EndsDestination(line, mask, close + 2, e))
    || (Kept(line, mask, close + 1, OPEN_BRACKET) && EndsLabel(line, mask, close + 2, e))
  }

  lemma NaiveEndMeans(line: Line, s: LinkScan, e: nat)
    requires ScanFits(line, s) && s.index < |line|
    ensures NaiveEnd(line, s) == e <==> Ends(line, s.mask, s.index, e)
  {
    hide NaiveDestination, EndsDestination, LabelSpec, EndsLabel;
    if s.index + 1 < |line| {
      DestinationMeans(line, s.mask, s.index + 2, e);
      LabelExactly(line, s.mask, s.index + 2, e);
    }
  }

  /** What has been written at or before the closing bracket is not read any more. */
  lemma NaiveEndAgrees(line: Line, s: LinkScan, mask: Mask)
    requires ScanFits(line, s) && s.index < |line| && |line| == |mask| && AgreeFrom(mask, s.mask, s.index + 1)
    ensures NaiveEnd(line, s) == NaiveEnd(line, s.(mask := mask))
  {
    hide Lead, TailFrom, NextMatch;
    if s.index + 1 < |line| {
      var from := s.index + 2;
      LeadAgrees(line, mask, s.mask, from);
      LabelScanIsNearest(line, mask, from);
      LabelScanIsNearest(line, s.mask, from);
      NextMatchAgrees(line, mask, s.mask, Only(CLOSE_BRACKET), from);
      NextMatchAgrees(line, mask, s.mask, Only(OPEN_BRACKET), from);
      match Lead(line, mask, from)
      case ToTitle(cursor) => ReadingAgrees(line, mask, s.mask, cursor);
      case _ =>
    }
  }

  lemma EndMeans(line: Line, s: LinkScan, mask: Mask, e: nat)
    requires ScanFits(line, s) && s.index < |line| && |line| == |mask| && AgreeFrom(mask, s.mask, s.index + 1)
    ensures NaiveEnd(line, s) == e <==> Ends(line, mask, s.index, e)
  {
    hide NaiveEnd, Ends;
    NaiveEndAgrees(line, s, mask);
    NaiveEndMeans(line, s.(mask := mask), e);
  }

  // ---------------------------------------------------------------- which brackets belong together

  /** Within a destination or label of some link, where brackets mean nothing. */
  predicate InTail(links: seq<Link>, x: int) {
    exists k :: 0 <= k < |links| && links[k].close < x <= links[k].end
  }

  /** The kept `[` before `i` that no kept `]` has answered yet, innermost last. */
  function OpenBrackets(line: Line, mask: Mask, links: seq<Link>, i: nat): (s: seq<nat>)
    requires |line| == |mask| && i <= |line|
  {
    if i == 0 then []
    else
      var s := OpenBrackets(line, mask, links, i - 1);
      if InTail(links, i - 1) then s
      else if Kept(line, mask, i - 1, OPEN_BRACKET) then s + [i - 1]
      else if Kept(line, mask, i - 1, CLOSE_BRACKET) && |s| > 0 then s[..|s| - 1]
      else s
  }

  /** The brackets of a link: a kept `]` outside all tails, and the innermost `[` open there; it is
      an image when a kept `!` precedes the `[`. */
  predicate Bracketed(line: Line, mask: Mask, links: seq<Link>, l: Link)
    requires |line| == |mask|
  {
    && Kept(line, mask, l.close, CLOSE_BRACKET) && !InTail(links, l.close)
    && Top(OpenBrackets(line, mask, links, l.close)) == l.open
    && (l.image <==> Kept(line, mask, l.open - 1, BANG))
  }

  /** What a link is, given which characters are in the tails of links. */
  ghost predicate IsLink(line: Line, mask: Mask, links: seq<Link>, l: Link)
    requires |line| == |mask|
  {
    Bracketed(line, mask, links, l) && Ends(line, mask, l.close, l.end)
  }

  /** The end is looked for by the title tail, whose finders remember earlier searches. */
  predicate HasTail(line: Line, mask: Mask, close: nat)
    requires |line| == |mask|
  {
    OpensDestination(line, mask, close) && Lead(line, mask, close + 2).ToTitle?
  }

  lemma {:induction false} TailsOnlyBehind(line: Line, mask: Mask, links: seq<Link>, l: Link, i: nat)
    requires |line| == |mask| && i <= |line| && i <= l.close + 1
    ensures OpenBrackets(line, mask, links + [l], i) == OpenBrackets(line, mask, links, i)
  {
    if i > 0 {
      TailsOnlyBehind(line, mask, links, l, i - 1);
      InTailAppend(links, l, i - 1);
    }
  }

  lemma InTailAppend(links: seq<Link>, l: Link, x: int)
    ensures InTail(links + [l], x) <==> InTail(links, x) || l.close < x <= l.end
  {
    var all := links + [l];
    assert all[|links|] == l;
    if InTail(links, x) {
      var k :| 0 <= k < |links| && links[k].close < x <= links[k].end;
      assert all[k] == links[k];
    }
  }

  /** No bracket within a tail opens or answers anything. */
  lemma {:induction false} TailIsFlat(line: Line, mask: Mask, links: seq<Link>, l: Link, i: nat)
    requires |line| == |mask| && l in links && l.close < i <= l.end + 1 <= |line|
    ensures OpenBrackets(line, mask, links, i) == OpenBrackets(line, mask, links, l.close + 1)
  {
    if i > l.close + 1 {
      TailIsFlat(line, mask, links, l, i - 1);
    }
  }

  // ---------------------------------------------------------------- the pass keeps to the rule

  /** The openers of the scan are the open brackets before the cursor. */
  predicate OpenersMatch(line: Line, mask: Mask, s: LinkScan)
    requires |line| == |mask| && s.index <= |line|
  {
    var open := OpenBrackets(line, mask, s.links, s.index);
    && |s.openers| == |open|
    && forall k :: 0 <= k < |open| ==>
         s.openers[k].position == open[k] && (s.openers[k].image <==> Kept(line, mask, s.openers[k].position - 1, BANG))
  }

  /** The ends that are judged: all of them, or those found without a title tail. */
  predicate Judged(line: Line, mask: Mask, all: bool, close: nat)
    requires |line| == |mask|
  {
    all || !HasTail(line, mask, close)
  }

  ghost predicate OnlyLinks(line: Line, mask: Mask, links: seq<Link>, all: bool)
    requires |line| == |mask|
  {
    forall l :: l in links ==>
      Bracketed(line, mask, links, l) && (Judged(line, mask, all, l.close) ==> Ends(line, mask, l.close, l.end))
  }

  ghost predicate AllLinks(line: Line, mask: Mask, links: seq<Link>, all: bool, index: nat)
    requires |line| == |mask|
  {
    forall l: Link :: l.close < index && IsLink(line, mask, links, l) && Judged(line, mask, all, l.close) ==> l in links
  }

  ghost predicate Exact(line: Line, mask: Mask, s: LinkScan, all: bool)
    requires |line| == |mask|
  {
    && ScanSound(line, mask, s) && OpenersMatch(line, mask, s)
    && OnlyLinks(line, mask, s.links, all) && AllLinks(line, mask, s.links, all, s.index)
  }

  /** Nothing is written over a `!` that precedes an opening bracket. */
  lemma BangIsKept(line: Line, mask: Mask, s: LinkScan)
    requires |line| == |mask| && ScanSound(line, mask, s) && 0 < s.index < |line|
    ensures line[s.index - 1] == BANG ==> s.mask[s.index - 1] == mask[s.index - 1]
  {
    var p := s.index - 1;
    if line[p] == BANG {
      forall k | 0 <= k < |s.links|
        ensures !s.links[k].image ==> !s.links[k].Removes(p)
      {
        assert LinkWellFormed(line, mask, s.links[k]) && s.links[k].end < s.index;
      }
    }
  }

  /** The characters the scan looks at next are as they were at the start. */
  lemma AheadUnchanged(line: Line, mask: Mask, s: LinkScan)
    requires |line| == |mask| && ScanSound(line, mask, s) && s.index < |line|
    ensures ScanFits(line, s) && mask[s.index] == s.mask[s.index]
    ensures s.index > 0 && line[s.index - 1] == BANG && s.mask[s.index - 1] == Keep
      <==> Kept(line, mask, s.index - 1, BANG)
    ensures forall e: nat :: NaiveEnd(line, s) == e <==> Ends(line, mask, s.index, e)
  {
    hide NaiveEnd, Ends;
    if 0 < s.index {
      BangIsKept(line, mask, s);
    }
    forall e: nat ensures NaiveEnd(line, s) == e <==> Ends(line, mask, s.index, e) {
      EndMeans(line, s, mask, e);
    }
  }

  lemma BeyondTails(line: Line, mask: Mask, s: LinkScan, x: nat)
    requires |line| == |mask| && ScanSound(line, mask, s) && s.index <= x
    ensures !InTail(s.links, x)
  {
  }

  lemma OpenStep(line: Line, mask: Mask, links: seq<Link>, i: nat)
    requires |line| == |mask| && i < |line| && !InTail(links, i)
    ensures var open := OpenBrackets(line, mask, links, i);
      OpenBrackets(line, mask, links, i + 1) ==
        if Kept(line, mask, i, OPEN_BRACKET) then open + [i]
        else if Kept(line, mask, i, CLOSE_BRACKET) && |open| > 0 then open[..|open| - 1]
        else open
  {
  }

  /** A character that is no kept bracket, or a `]` that nothing answers. */
  lemma PassMatch(line: Line, mask: Mask, s: LinkScan, next: LinkScan)
    requires |line| == |mask| && s.index < |line| && OpenersMatch(line, mask, s) && !InTail(s.links, s.index)
    requires || mask[s.index] != Keep || (|s.openers| == 0 && line[s.index] == CLOSE_BRACKET)
             || (line[s.index] != OPEN_BRACKET && line[s.index] != CLOSE_BRACKET)
    requires next == s.(index := s.index + 1)
    ensures OpenersMatch(line, mask, next)
  {
    hide OpenBrackets, InTail;
    OpenStep(line, mask, s.links, s.index);
  }

  lemma PushMatch(line: Line, mask: Mask, s: LinkScan, next: LinkScan)
    requires |line| == |mask| && s.index < |line| && OpenersMatch(line, mask, s) && !InTail(s.links, s.index)
    requires Kept(line, mask, s.index, OPEN_BRACKET)
    requires next.index == s.index + 1 && next.links == s.links
    requires next.openers == s.openers + [Opener(s.index, Kept(line, mask, s.index - 1, BANG))]
    ensures OpenersMatch(line, mask, next)
  {
    hide OpenBrackets, InTail;
    OpenStep(line, mask, s.links, s.index);
  }

  lemma PopMatch(line: Line, mask: Mask, s: LinkScan, next: LinkScan)
    requires |line| == |mask| && s.index < |line| && OpenersMatch(line, mask, s) && !InTail(s.links, s.index)
    requires Kept(line, mask, s.index, CLOSE_BRACKET) && |s.openers| > 0
    requires next.index <= |line| && next.openers == s.openers[..|s.openers| - 1]
    requires OpenBrackets(line, mask, next.links, next.index) == OpenBrackets(line, mask, s.links, s.index + 1)
    ensures OpenersMatch(line, mask, next)
  {
    hide OpenBrackets, InTail;
    OpenStep(line, mask, s.links, s.index);
  }

  /** Where the character at the cursor closes no link, nothing is missing. */
  lemma NothingMissed(line: Line, mask: Mask, s: LinkScan, all: bool)
    requires |line| == |mask| && s.index < |line| && OpenersMatch(line, mask, s)
    requires AllLinks(line, mask, s.links, all, s.index)
    requires Kept(line, mask, s.index, CLOSE_BRACKET) && |s.openers| > 0 && Judged(line, mask, all, s.index) ==>
      forall e: nat :: !Ends(line, mask, s.index, e)
    ensures AllLinks(line, mask, s.links, all, s.index + 1)
  {
    hide Ends, HasTail, OpenBrackets, InTail;
  }

  lemma BracketedStays(line: Line, mask: Mask, links: seq<Link>, last: Link, l: Link)
    requires |line| == |mask| && l.close <= last.close < |line|
    ensures Bracketed(line, mask, links + [last], l) <==> Bracketed(line, mask, links, l)
  {
    if l.close < |line| {
      TailsOnlyBehind(line, mask, links, last, l.close);
    }
    InTailAppend(links, last, l.close);
  }

  lemma NewLink(line: Line, mask: Mask, s: LinkScan, all: bool, end: nat)
    requires |line| == |mask| && Exact(line, mask, s, all) && s.index < end < |line| && |s.openers| > 0
    requires mask[s.index] == Keep && line[s.index] == CLOSE_BRACKET
    ensures var opener := s.openers[|s.openers| - 1];
      Bracketed(line, mask, s.links, Link(opener.position, opener.image, s.index, end))
  {
    BeyondTails(line, mask, s, s.index);
  }

  /** Behind the new link the same brackets are open as behind its `]`. */
  lemma OpenBehind(line: Line, mask: Mask, links: seq<Link>, last: Link)
    requires |line| == |mask| && last.close < last.end < |line|
    ensures OpenBrackets(line, mask, links + [last], last.end + 1) == OpenBrackets(line, mask, links, last.close + 1)
  {
    hide OpenBrackets;
    assert (links + [last])[|links|] == last;
    TailIsFlat(line, mask, links + [last], last, last.end + 1);
    TailsOnlyBehind(line, mask, links, last, last.close + 1);
  }

  lemma FoundKeepsLinks(line: Line, mask: Mask, s: LinkScan, all: bool, last: Link)
    requires |line| == |mask| && Exact(line, mask, s, all)
    requires last.close == s.index < last.end < |line| && Bracketed(line, mask, s.links, last)
    requires Judged(line, mask, all, last.close) ==>
      forall e: nat :: Ends(line, mask, last.close, e) <==> e == last.end
    ensures OnlyLinks(line, mask, s.links + [last], all)
    ensures AllLinks(line, mask, s.links + [last], all, last.end + 1)
  {
    hide Ends, HasTail, ScanSound, OpenersMatch;
    var links := s.links + [last];
    forall l | l in links
      ensures Bracketed(line, mask, links, l) && (Judged(line, mask, all, l.close) ==> Ends(line, mask, l.close, l.end))
    {
      assert l in s.links || l == last;
      ClosesBefore(line, mask, s, l, last);
      BracketedStays(line, mask, s.links, last, l);
    }
    forall l: Link | l.close < last.end + 1 && IsLink(line, mask, links, l) && Judged(line, mask, all, l.close)
      ensures l in links
    {
      InTailAppend(s.links, last, l.close);
      BracketedStays(line, mask, s.links, last, l);
      assert l.close < s.index ==> l in s.links;
      assert l.close == s.index ==> l == last;
    }
  }

  lemma ClosesBefore(line: Line, mask: Mask, s: LinkScan, l: Link, last: Link)
    requires |line| == |mask| && ScanSound(line, mask, s) && last.close == s.index
    ensures l in s.links || l == last ==> l.close <= last.close
  {
  }

  /** Each turn keeps to the rule, provided that the end is right wherever it is judged. */
  lemma StepExact(line: Line, mask: Mask, s: LinkScan, all: bool, end: int, titles: TitleFinders)
    requires |line| == |mask| && Exact(line, mask, s, all) && s.index < |line| && titles.Fits(|line|)
    requires end == -1 || EndFits(line, s, end)
    requires AtLinkText(line, s) && Judged(line, mask, all, s.index) ==> end == NaiveEnd(line, s)
    ensures Exact(line, mask, TakeStep(line, s, end, titles), all)
  {
    hide ScanSound, OpenersMatch, OnlyLinks, AllLinks, Ends, NaiveEnd, HasTail, Bracketed, OpenBrackets, InTail;
    AheadUnchanged(line, mask, s);
    TakeStepSound(line, mask, s, end, titles);
    BeyondTails(line, mask, s, s.index);
    var next := TakeStep(line, s, end, titles);
    var ch := line[s.index];
    if AtLinkText(line, s) && end != -1 {
      var opener := s.openers[|s.openers| - 1];
      var last := Link(opener.position, opener.image, s.index, end);
      NewLink(line, mask, s, all, end);
      FoundKeepsLinks(line, mask, s, all, last);
      OpenBehind(line, mask, s.links, last);
      PopMatch(line, mask, s, next);
    } else {
      NothingMissed(line, mask, s, all);
      if AtLinkText(line, s) {
        PopMatch(line, mask, s, next);
      } else if mask[s.index] == Keep && ch == OPEN_BRACKET {
        PushMatch(line, mask, s, next);
      } else {
        PassMatch(line, mask, s, next);
      }
    }
  }

  lemma NaiveEndFits(line: Line, s: LinkScan)
    requires ScanFits(line, s) && s.index < |line| && NaiveEnd(line, s) != -1
    ensures EndFits(line, s, NaiveEnd(line, s))
  {
    hide NaiveDestination, LabelSpec;
  }

  /** Without a title tail the scanner's answer does not depend on what it remembers. */
  lemma UntitledEnd(line: Line, mask: Mask, s: LinkScan)
    requires |line| == |mask| && ScanSound(line, mask, s) && s.index < |line|
    requires AtLinkText(line, s) && !HasTail(line, mask, s.index)
    ensures LinkEnd(line, s).0 == NaiveEnd(line, s)
  {
    hide Lead, TitleTail, NaiveTail, LabelSpec;
    if s.index + 1 < |line| {
      LeadAgrees(line, mask, s.mask, s.index + 2);
      assert mask[s.index] == s.mask[s.index] && mask[s.index + 1] == s.mask[s.index + 1];
    }
  }

  lemma StartExact(line: Line, mask: Mask, all: bool)
    requires |line| == |mask|
    ensures Exact(line, mask, StartScan(mask), all)
  {
    StartSound(line, mask);
  }

  lemma ExactFits(line: Line, mask: Mask, s: LinkScan, all: bool)
    requires |line| == |mask| && Exact(line, mask, s, all)
    ensures ScanFits(line, s) && ScanSound(line, mask, s)
  {
  }

  lemma {:induction false} NaiveRunExact(line: Line, mask: Mask, s: LinkScan)
    requires |line| == |mask| && ScanFits(line, s) && Exact(line, mask, s, true)
    ensures Exact(line, mask, NaiveRun(line, s), true) && NaiveRun(line, s).index == |line|
    decreases |line| - s.index
  {
    hide Exact, TakeStep, NaiveEnd;
    if s.index < |line| {
      var end := NaiveEnd(line, s);
      if end != -1 {
        NaiveEndFits(line, s);
      }
      StepExact(line, mask, s, true, end, s.titles);
      NaiveRunExact(line, mask, NaiveStep(line, s));
    }
  }

  lemma {:induction false} LinkRunExact(line: Line, mask: Mask, s: LinkScan)
    requires |line| == |mask| && ScanFits(line, s) && Exact(line, mask, s, false)
    ensures Exact(line, mask, LinkRun(line, s), false) && LinkRun(line, s).index == |line|
    decreases |line| - s.index
  {
    hide Exact, TakeStep, LinkEnd, NaiveEnd, HasTail;
    if s.index < |line| {
      ExactFits(line, mask, s, false);
      var (end, titles) := LinkEnd(line, s);
      if end != -1 {
        LinkEndKind(line, s);
      }
      if AtLinkText(line, s) && !HasTail(line, mask, s.index) {
        UntitledEnd(line, mask, s);
      }
      StepExact(line, mask, s, false, end, titles);
      LinkRunExact(line, mask, LinkStep(line, s));
    }
  }

  // ---------------------------------------------------------------- the rule

  /** A pass that remembers nothing finds exactly the links of the rule. */
  lemma NaiveLinksExactly(line: Line, mask: Mask, l: Link)
    requires |line| == |mask|
    ensures l in NaiveLinks(line, mask) <==> IsLink(line, mask, NaiveLinks(line, mask), l)
  {
    hide Ends, Bracketed;
    StartExact(line, mask, true);
    NaiveRunExact(line, mask, StartScan(mask));
    if IsLink(line, mask, NaiveLinks(line, mask), l) {
      IsLinkWithin(line, mask, NaiveLinks(line, mask), l);
    }
  }

  lemma IsLinkWithin(line: Line, mask: Mask, links: seq<Link>, l: Link)
    requires |line| == |mask| && IsLink(line, mask, links, l)
    ensures l.close < |line|
  {
  }

  /** So does the pass itself, on every line on which no title tail is misled. */
  lemma LinksExactly(line: Line, mask: Mask, l: Link)
    requires |line| == |mask| && NeverMisled(line, StartScan(mask), 0)
    ensures l in Links(line, mask) <==> IsLink(line, mask, Links(line, mask), l)
  {
    LinksNaiveExactly(line, mask);
    NaiveLinksExactly(line, mask, l);
  }

  /** On every line whatsoever: the brackets of each link are those of the rule, and where no title
      tail is read, behind labels in particular, a link is found exactly if the rule has one. */
  lemma UntitledLinksExactly(line: Line, mask: Mask, l: Link)
    requires |line| == |mask|
    ensures l in Links(line, mask) ==> Bracketed(line, mask, Links(line, mask), l)
    ensures !HasTail(line, mask, l.close) ==>
      (l in Links(line, mask) <==> IsLink(line, mask, Links(line, mask), l))
  {
    hide Ends, Bracketed, HasTail;
    StartExact(line, mask, false);
    LinkRunExact(line, mask, StartScan(mask));
    if IsLink(line, mask, Links(line, mask), l) {
      IsLinkWithin(line, mask, Links(line, mask), l);
    }
  }

  // ---------------------------------------------------------------- the rule has one solution

  predicate SameBefore(a: seq<Link>, b: seq<Link>, n: nat) {
    && (forall l :: l in a && l.close < n ==> l in b)
    && (forall l :: l in b && l.close < n ==> l in a)
  }

  ghost predicate Obeys(line: Line, mask: Mask, links: seq<Link>)
    requires |line| == |mask|
  {
    forall l :: l in links <==> IsLink(line, mask, links, l)
  }

  lemma SameTails(a: seq<Link>, b: seq<Link>, n: nat, x: int)
    requires SameBefore(a, b, n) && x <= n
    ensures InTail(a, x) <==> InTail(b, x)
  {
    if InTail(a, x) {
      var k :| 0 <= k < |a| && a[k].close < x <= a[k].end;
      assert a[k] in b;
    }
    if InTail(b, x) {
      var k :| 0 <= k < |b| && b[k].close < x <= b[k].end;
      assert b[k] in a;
    }
  }

  lemma {:induction false} SameOpenBrackets(line: Line, mask: Mask, a: seq<Link>, b: seq<Link>, n: nat, i: nat)
    requires |line| == |mask| && i <= |line| && i <= n + 1 && SameBefore(a, b, n)
    ensures OpenBrackets(line, mask, a, i) == OpenBrackets(line, mask, b, i)
  {
    if i > 0 {
      SameTails(a, b, n, i - 1);
      SameOpenBrackets(line, mask, a, b, n, i - 1);
    }
  }

  lemma {:induction false} SameLinks(line: Line, mask: Mask, a: seq<Link>, b: seq<Link>, n: nat)
    requires |line| == |mask| && Obeys(line, mask, a) && Obeys(line, mask, b)
    ensures SameBefore(a, b, n)
  {
    hide Ends, OpenBrackets, InTail;
    if n > 0 {
      SameLinks(line, mask, a, b, n - 1);
      SameTails(a, b, n - 1, n - 1);
      if n - 1 < |line| {
        SameOpenBrackets(line, mask, a, b, n - 1, n - 1);
      }
      forall l: Link | l.close < n
        ensures l in a <==> l in b
      {
        if l.close == n - 1 {
          assert IsLink(line, mask, a, l) <==> IsLink(line, mask, b, l);
        }
      }
    }
  }

  /** Two lists that obey the rule have the same links, so the rule says what the links are. */
  lemma RuleDetermines(line: Line, mask: Mask, a: seq<Link>, b: seq<Link>, l: Link)
    requires |line| == |mask| && Obeys(line, mask, a) && Obeys(line, mask, b)
    ensures l in a <==> l in b
  {
    SameLinks(line, mask, a, b, l.close + 1);
  }
}
