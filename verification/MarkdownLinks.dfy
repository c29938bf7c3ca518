/** `createLinkScanner`, `linkDestinationEnd`, `referenceLabelEnd` and `markLinks`: the pass
    that removes link and image syntax from one paragraph. */
module MarkdownLinks {
  import opened MarkdownBase
  import opened MarkdownDestination

  // ---------------------------------------------------------------- title tail

  /** The finders behind the title tail. The first is asked at two places for each link, so not in
      increasing order; the two for quotes are asked behind its answers, which never decrease. */
  datatype TitleFinders = TitleFinders(nonWhitespace: Finder, doubleQuote: Finder, singleQuote: Finder) {
    predicate Fits(length: nat) {
      && FinderFits(nonWhitespace, length)
      && FinderFits(doubleQuote, length)
      && FinderFits(singleQuote, length)
    }
  }

  const FRESH_TITLES := TitleFinders(FRESH_FINDER, FRESH_FINDER, FRESH_FINDER)

  /** From the quote at `titleStart` on: the title, then `)`. */
  function QuotedTail(line: Line, mask: Mask, titleStart: nat, st: TitleFinders): (r: (int, TitleFinders))
    requires titleStart < |line| == |mask| && st.Fits(|line|)
    ensures r.1.Fits(|line|)
    ensures r.0 == -1 || (titleStart < r.0 < |line| && line[r.0] == CLOSE_PAREN)
  {
    var quote := line[titleStart];
    var (titleEnd, quotes) := FindSpec(line, mask, Only(quote),
      if quote == DOUBLE_QUOTE then st.doubleQuote else st.singleQuote, titleStart + 1);
    var st1 := if quote == DOUBLE_QUOTE then st.(doubleQuote := quotes) else st.(singleQuote := quotes);
    if titleEnd == -1 then (-1, st1)
    else
      var (close, blanks) := FindSpec(line, mask, NonWhitespace, st1.nonWhitespace, titleEnd + 1);
      (if close != -1 && line[close] == CLOSE_PAREN then close else -1, st1.(nonWhitespace := blanks))
  }

  /** From `cursor` on: an optional quoted title, then `)`. */
  function TitleTail(line: Line, mask: Mask, cursor: nat, st: TitleFinders): (r: (int, TitleFinders))
    requires |line| == |mask| && st.Fits(|line|)
    ensures r.1.Fits(|line|)
    ensures r.0 == -1 || (cursor <= r.0 < |line| && line[r.0] == CLOSE_PAREN)
  {
    var (titleStart, blanks) := FindSpec(line, mask, NonWhitespace, st.nonWhitespace, cursor);
    var st1 := st.(nonWhitespace := blanks);
    if titleStart == -1 then (-1, st1)
    else
      var quote := line[titleStart];
      if quote == CLOSE_PAREN then (titleStart, st1)
      else if !IsQuote(quote) then (-1, st1)
      else QuotedTail(line, mask, titleStart, st1)
  }

  /** How the destination that starts at `from` begins, read by the naive scans: it ends there,
      goes on to a title, or is none. */
  function Lead(line: Line, mask: Mask, from: nat): (r: Scan)
    requires |line| == |mask| && from <= |line|
    ensures r.Closes? ==> from <= r.at < |line| && line[r.at] == CLOSE_PAREN
    ensures r.ToTitle? ==> from <= r.at <= |line|
  {
    if from < |line| && line[from] == ANGLE_OPEN && mask[from] == Keep then
      match AngleScan(line, mask, from + 1)
      case Closes(at) => ToTitle(at + 1)
      case _ => Rejected
    else DepthScan(line, mask, from, 0)
  }

  /** Where that destination ends; only the title tail depends on what its finders remember. */
  function DestinationSpec(line: Line, mask: Mask, from: nat, st: TitleFinders): (r: (int, TitleFinders))
    requires |line| == |mask| && from <= |line| && st.Fits(|line|)
    ensures r.1.Fits(|line|)
    ensures r.0 == -1 || (from <= r.0 < |line| && line[r.0] == CLOSE_PAREN)
  {
    match Lead(line, mask, from)
    case Closes(at) => (at, st)
    case ToTitle(cursor) => TitleTail(line, mask, cursor, st)
    case Rejected => (-1, st)
  }

  function LabelSpec(line: Line, mask: Mask, from: nat): (r: int)
    requires |line| == |mask|
    ensures r == -1 || (from <= r < |line| && line[r] == CLOSE_BRACKET)
  {
    match LabelScan(line, mask, from)
    case Closes(at) => at
    case _ => -1
  }

  lemma LabelExactly(line: Line, mask: Mask, from: nat, e: int)
    requires |line| == |mask|
    ensures e != -1 && LabelSpec(line, mask, from) == e <==> EndsLabel(line, mask, from, e)
  {
    LabelScanExactly(line, mask, from);
  }

  // ---------------------------------------------------------------- the scanner

  /** The finders that are only ever queried in increasing order. */
  datatype MonotoneFinders = MonotoneFinders(
    whitespace: Finder, angleClose: Finder, angleOpenOrBreak: Finder, bracketClose: Finder, bracketOpen: Finder)

  const FRESH_MONOTONE := MonotoneFinders(FRESH_FINDER, FRESH_FINDER, FRESH_FINDER, FRESH_FINDER, FRESH_FINDER)

  predicate AllHonest(line: Line, mask: Mask, f: MonotoneFinders, low: nat)
    requires |line| == |mask|
  {
    && Honest(line, mask, Whitespace, f.whitespace, low)
    && Honest(line, mask, Only(ANGLE_CLOSE), f.angleClose, low)
    && Honest(line, mask, AngleOpenOrBreak, f.angleOpenOrBreak, low)
    && Honest(line, mask, Only(CLOSE_BRACKET), f.bracketClose, low)
    && Honest(line, mask, Only(OPEN_BRACKET), f.bracketOpen, low)
  }

  lemma AllHonestLater(line: Line, mask: Mask, mask': Mask, f: MonotoneFinders, low: nat, low': nat)
    requires |line| == |mask| && AllHonest(line, mask, f, low)
    requires low <= low' && AgreeFrom(mask, mask', low')
    ensures AllHonest(line, mask', f, low')
  {
    HonestLater(line, mask, mask', Whitespace, f.whitespace, low, low');
    HonestLater(line, mask, mask', Only(ANGLE_CLOSE), f.angleClose, low, low');
    HonestLater(line, mask, mask', AngleOpenOrBreak, f.angleOpenOrBreak, low, low');
    HonestLater(line, mask, mask', Only(CLOSE_BRACKET), f.bracketClose, low, low');
    HonestLater(line, mask, mask', Only(OPEN_BRACKET), f.bracketOpen, low, low');
  }

  /** The right-to-left table: at each position the nearest unmatched closer. */
  method BuildCloserTable(line: Line, mask: array<Flag>) returns (closerAt: array<int>)
    requires mask.Length == |line|
    ensures fresh(closerAt) && closerAt.Length == |line|
    ensures forall i {:trigger closerAt[i]} :: 0 <= i < |line| ==> closerAt[i] == Top(ClosersFrom(line, mask[..], i))
  {
    ghost var now := mask[..];
    closerAt := new int[|line|];
    var stack: seq<nat> := [];
    var index := |line|;
    while index > 0
      invariant 0 <= index <= |line|
      invariant mask[..] == now
      invariant stack == ClosersFrom(line, now, index)
      invariant forall i {:trigger closerAt[i]} :: index <= i < |line| ==> closerAt[i] == Top(ClosersFrom(line, now, i))
    {
      index := index - 1;
      if mask[index] == Keep {
        if line[index] == CLOSE_PAREN {
          stack := stack + [index];
        } else if line[index] == OPEN_PAREN && |stack| > 0 {
          stack := stack[..|stack| - 1];
        }
      }
      closerAt[index] := Top(stack);
    }
  }

  /** The left-to-right table: at each position the innermost opener still open before it. */
  method BuildOpenTable(line: Line, mask: array<Flag>) returns (openParenBefore: array<int>)
    requires mask.Length == |line|
    ensures fresh(openParenBefore) && openParenBefore.Length == |line|
    ensures forall i {:trigger openParenBefore[i]} :: 0 <= i < |line| ==>
      openParenBefore[i] == Top(OpensBefore(line, mask[..], i))
  {
    ghost var now := mask[..];
    openParenBefore := new int[|line|];
    var stack: seq<nat> := [];
    var index := 0;
    while index < |line|
      invariant 0 <= index <= |line|
      invariant mask[..] == now
      invariant stack == OpensBefore(line, now, index)
      invariant forall i {:trigger openParenBefore[i]} :: 0 <= i < index ==>
        openParenBefore[i] == Top(OpensBefore(line, now, i))
    {
      openParenBefore[index] := Top(stack);
      if mask[index] == Keep {
        if line[index] == OPEN_PAREN {
          stack := stack + [index];
        } else if line[index] == CLOSE_PAREN && |stack| > 0 {
          stack := stack[..|stack| - 1];
        }
      }
      index := index + 1;
    }
  }

  class LinkScanner {
    const line: Line
    ghost const built: Mask
    const closerAt: array<int>
    const openParenBefore: array<int>
    var finders: MonotoneFinders
    var titles: TitleFinders

    /** Both tables hold what the mask of that moment says. */
    ghost predicate TablesBuilt()
      reads closerAt, openParenBefore
    {
      && |built| == |line| == closerAt.Length == openParenBefore.Length
      && (forall i {:trigger closerAt[i]} :: 0 <= i < |line| ==> closerAt[i] == Top(ClosersFrom(line, built, i)))
      && (forall i {:trigger openParenBefore[i]} :: 0 <= i < |line| ==>
            openParenBefore[i] == Top(OpensBefore(line, built, i)))
    }

    /** The scanner may be asked about destinations at `low` or later under this mask. */
    ghost predicate ReadyAt(mask: Mask, low: nat)
      reads this
      requires |built| == |line|
    {
      && AgreeFrom(built, mask, low)
      && AllHonest(line, mask, finders, low)
      && titles.Fits(|line|)
    }

    constructor (line: Line, mask: array<Flag>)
      requires mask.Length == |line|
      ensures this.line == line && titles == FRESH_TITLES
      ensures TablesBuilt() && built == mask[..]
      ensures ReadyAt(mask[..], 0)
      ensures fresh(closerAt) && fresh(openParenBefore)
    {
      this.line := line;
      built := mask[..];
      var closers := BuildCloserTable(line, mask);
      var opens := BuildOpenTable(line, mask);
      closerAt, openParenBefore := closers, opens;
      finders, titles := FRESH_MONOTONE, FRESH_TITLES;
    }

    /** The cursor moves on; writes behind it do not disturb the scanner. */
    lemma ReadyLater(mask: Mask, mask': Mask, low: nat, low': nat)
      requires |built| == |line| && ReadyAt(mask, low)
      requires low <= low' && AgreeFrom(mask, mask', low')
      ensures ReadyAt(mask', low')
    {
      AllHonestLater(line, mask, mask', finders, low, low');
    }

    method TitleEnd(mask: array<Flag>, cursor: nat) returns (r: int)
      requires mask.Length == |line| && titles.Fits(|line|)
      modifies this`titles
      ensures (r, titles) == TitleTail(line, mask[..], cursor, old(titles))
    {
      var titleStart, blanks := Find(line, mask, NonWhitespace, titles.nonWhitespace, cursor);
      titles := titles.(nonWhitespace := blanks);
      if titleStart == -1 {
        return -1;
      }
      var quote := line[titleStart];
      if quote == CLOSE_PAREN {
        return titleStart;
      }
      if quote != DOUBLE_QUOTE && quote != SINGLE_QUOTE {
        return -1;
      }
      var titleEnd, quotes := Find(line, mask, Only(quote),
        if quote == DOUBLE_QUOTE then titles.doubleQuote else titles.singleQuote, titleStart + 1);
      titles := if quote == DOUBLE_QUOTE then titles.(doubleQuote := quotes) else titles.(singleQuote := quotes);
      if titleEnd == -1 {
        return -1;
      }
      var close, blanks' := Find(line, mask, NonWhitespace, titles.nonWhitespace, titleEnd + 1);
      titles := titles.(nonWhitespace := blanks');
      return if close != -1 && line[close] == CLOSE_PAREN then close else -1;
    }

    /** The angle-bracketed branch: where the destination closes, if it does. */
    method AngleEnd(mask: array<Flag>, from: nat) returns (r: int)
      requires mask.Length == |line| && |built| == |line| && ReadyAt(mask[..], from)
      modifies this`finders
      ensures -1 <= r && NearestDecides(r, -1) == AngleScan(line, mask[..], from)
      ensures ReadyAt(mask[..], from)
    {
      ghost var now := mask[..];
      AngleScanIsNearest(line, now, from);
      HonestAnswer(line, now, Only(ANGLE_CLOSE), finders.angleClose, from);
      HonestAnswer(line, now, AngleOpenOrBreak, finders.angleOpenOrBreak, from);
      var close, angleClose := Find(line, mask, Only(ANGLE_CLOSE), finders.angleClose, from);
      finders := finders.(angleClose := angleClose);
      if close == -1 {
        return -1;
      }
      var invalid, angleOpenOrBreak := Find(line, mask, AngleOpenOrBreak, finders.angleOpenOrBreak, from);
      finders := finders.(angleOpenOrBreak := angleOpenOrBreak);
      return if invalid != -1 && invalid < close then -1 else close;
    }

    /** The bare branch, answered from the two tables and the whitespace finder. */
    method BareEnd(mask: array<Flag>, from: nat) returns (r: Scan)
      requires mask.Length == |line| && from <= |line|
      requires TablesBuilt() && ReadyAt(mask[..], from)
      modifies this`finders
      ensures r == DepthScan(line, mask[..], from, 0)
      ensures ReadyAt(mask[..], from)
    {
      ghost var now := mask[..];
      BareDestinationIsDepthScan(line, built, now, from);
      HonestAnswer(line, now, Whitespace, finders.whitespace, from);
      var closer := if from < |line| then closerAt[from] else -1;
      var space, whitespace := Find(line, mask, Whitespace, finders.whitespace, from);
      finders := finders.(whitespace := whitespace);
      if space == -1 || (closer != -1 && space > closer) {
        return if closer == -1 then Rejected else Closes(closer);
      }
      if openParenBefore[space] >= from {
        return Rejected;
      }
      return ToTitle(space);
    }

    method LinkDestinationEnd(mask: array<Flag>, from: nat) returns (r: int)
      requires mask.Length == |line| && from <= |line|
      requires TablesBuilt() && ReadyAt(mask[..], from)
      modifies this
      ensures (r, titles) == DestinationSpec(line, mask[..], from, old(titles))
      ensures ReadyAt(mask[..], from + 1)
    {
      hide AllHonest, ClosersFrom, OpensBefore, TitleTail, AngleScan, DepthScan;
      ReadyLater(mask[..], mask[..], from, from + 1);
      var cursor: nat;
      if from < |line| && line[from] == ANGLE_OPEN && mask[from] == Keep {
        var close := AngleEnd(mask, from + 1);
        if close == -1 {
          return -1;
        }
        cursor := close + 1;
      } else {
        var scan := BareEnd(mask, from);
        ReadyLater(mask[..], mask[..], from, from + 1);
        match scan {
          case Closes(at) => return at;
          case Rejected => return -1;
          case ToTitle(at) => cursor := at;
        }
      }
      r := TitleEnd(mask, cursor);
    }

    method ReferenceLabelEnd(mask: array<Flag>, from: nat) returns (r: int)
      requires mask.Length == |line| && |built| == |line| && ReadyAt(mask[..], from)
      modifies this`finders
      ensures r == LabelSpec(line, mask[..], from)
      ensures if r == -1 then forall e :: !EndsLabel(line, mask[..], from, e) else EndsLabel(line, mask[..], from, r)
      ensures ReadyAt(mask[..], from)
    {
      ghost var now := mask[..];
      LabelScanIsNearest(line, now, from);
      LabelScanExactly(line, now, from);
      HonestAnswer(line, now, Only(CLOSE_BRACKET), finders.bracketClose, from);
      HonestAnswer(line, now, Only(OPEN_BRACKET), finders.bracketOpen, from);
      var close, bracketClose := Find(line, mask, Only(CLOSE_BRACKET), finders.bracketClose, from);
      finders := finders.(bracketClose := bracketClose);
      if close == -1 {
        return -1;
      }
      var open, bracketOpen := Find(line, mask, Only(OPEN_BRACKET), finders.bracketOpen, from);
      finders := finders.(bracketOpen := bracketOpen);
      return if open != -1 && open < close then -1 else close;
    }
  }

  // ---------------------------------------------------------------- the pass over the line

  datatype Opener = Opener(position: nat, image: bool)

  /** One recognised link: its two brackets and the last character of its destination. */
  datatype Link = Link(open: nat, image: bool, close: nat, end: nat) {
    /** The characters this link removes. */
    predicate Removes(p: int) {
      if image then open - 1 <= p <= end else p == open || close <= p <= end
    }
  }

  datatype LinkScan = LinkScan(index: nat, mask: Mask, openers: seq<Opener>, links: seq<Link>, titles: TitleFinders)

  predicate ScanFits(line: Line, s: LinkScan) {
    && |s.mask| == |line|
    && s.index <= |line|
    && s.titles.Fits(|line|)
    && forall k :: 0 <= k < |s.openers| ==> s.openers[k].position < s.index
  }

  function LinkEnd(line: Line, s: LinkScan): (r: (int, TitleFinders))
    requires ScanFits(line, s) && s.index < |line|
    ensures r.1.Fits(|line|)
    ensures r.0 == -1 || (s.index + 2 <= r.0 < |line| && (line[r.0] == CLOSE_PAREN || line[r.0] == CLOSE_BRACKET))
  {
    if s.index + 1 < |line| && s.mask[s.index + 1] == Keep then
      if line[s.index + 1] == OPEN_PAREN then DestinationSpec(line, s.mask, s.index + 2, s.titles)
      else if line[s.index + 1] == OPEN_BRACKET then (LabelSpec(line, s.mask, s.index + 2), s.titles)
      else (-1, s.titles)
    else (-1, s.titles)
  }

  /** The `]` at the cursor closes the innermost opener and the link runs to `end`. */
  function LinkFound(line: Line, s: LinkScan, end: nat, titles: TitleFinders): (r: LinkScan)
    requires ScanFits(line, s) && s.index < end < |line| && |s.openers| > 0 && titles.Fits(|line|)
    ensures ScanFits(line, r) && r.index == end + 1
  {
    var opener := s.openers[|s.openers| - 1];
    LinkScan(end + 1,
             if opener.image then s.mask
             else Fill(s.mask[opener.position := Drop], Drop, s.index, end + 1),
             s.openers[..|s.openers| - 1],
             s.links + [Link(opener.position, opener.image, s.index, end)],
             titles)
  }

  /** The cursor is at a kept `]` while some `[` is open. */
  predicate AtLinkText(line: Line, s: LinkScan)
    requires ScanFits(line, s) && s.index < |line|
  {
    s.mask[s.index] == Keep && line[s.index] == CLOSE_BRACKET && |s.openers| > 0
  }

  /** One turn of the loop, where `end` and `titles` are what the scanner answers if it is asked. */
  function TakeStep(line: Line, s: LinkScan, end: int, titles: TitleFinders): (r: LinkScan)
    requires ScanFits(line, s) && s.index < |line| && titles.Fits(|line|)
    requires end == -1 || s.index + 2 <= end < |line|
    ensures ScanFits(line, r) && s.index < r.index
  {
    var ch := line[s.index];
    if s.mask[s.index] != Keep || (ch != OPEN_BRACKET && ch != CLOSE_BRACKET) then
      s.(index := s.index + 1)
    else if ch == OPEN_BRACKET then
      var image := s.index > 0 && line[s.index - 1] == BANG && s.mask[s.index - 1] == Keep;
      s.(openers := s.openers + [Opener(s.index, image)], index := s.index + 1)
    else if |s.openers| == 0 then
      s.(index := s.index + 1)
    else
      var rest := s.openers[..|s.openers| - 1];
      if end == -1 then s.(openers := rest, titles := titles, index := s.index + 1)
      else LinkFound(line, s, end, titles)
  }

  function LinkStep(line: Line, s: LinkScan): (r: LinkScan)
    requires ScanFits(line, s) && s.index < |line|
    ensures ScanFits(line, r) && s.index < r.index
  {
    var (end, titles) := LinkEnd(line, s);
    TakeStep(line, s, end, titles)
  }

  function LinkRun(line: Line, s: LinkScan): (r: LinkScan)
    requires ScanFits(line, s)
    ensures ScanFits(line, r)
    decreases |line| - s.index
  {
    if s.index == |line| then s else LinkRun(line, LinkStep(line, s))
  }

  function StartScan(mask: Mask): LinkScan {
    LinkScan(0, mask, [], [], FRESH_TITLES)
  }

  /** The links of a paragraph whose mask is `mask` when the pass starts. */
  function Links(line: Line, mask: Mask): seq<Link>
    requires |line| == |mask|
  {
    LinkRun(line, StartScan(mask)).links
  }

  // ---------------------------------------------------------------- what the pass guarantees

  predicate LinkWellFormed(line: Line, mask: Mask, l: Link)
    requires |line| == |mask|
  {
    && l.open < l.close < l.close + 2 <= l.end < |line|
    && line[l.open] == OPEN_BRACKET && mask[l.open] == Keep
    && line[l.close] == CLOSE_BRACKET && mask[l.close] == Keep
    && (line[l.end] == if line[l.close + 1] == OPEN_PAREN then CLOSE_PAREN else CLOSE_BRACKET)
    && (line[l.close + 1] == OPEN_PAREN || line[l.close + 1] == OPEN_BRACKET)
    && (l.image ==> 0 < l.open && line[l.open - 1] == BANG)
  }

  /** `a` was recognised before `b`: it ends before `b` starts, or lies in the text of `b`. */
  predicate Nested(a: Link, b: Link) {
    a.end < b.open || (b.open < a.open && a.end < b.close)
  }

  predicate Removed(links: seq<Link>, p: int) {
    exists k :: 0 <= k < |links| && links[k].Removes(p)
  }

  predicate RemovedByText(links: seq<Link>, p: int) {
    exists k :: 0 <= k < |links| && !links[k].image && links[k].Removes(p)
  }

  /** Live openers: kept `[` characters at increasing positions before the cursor. */
  predicate OpenersSound(line: Line, mask: Mask, openers: seq<Opener>, index: nat)
    requires |line| == |mask| && index <= |line|
  {
    && (forall i, j :: 0 <= i < j < |openers| ==> openers[i].position < openers[j].position)
    && (forall k :: 0 <= k < |openers| ==>
          var p := openers[k].position;
          p < index && line[p] == OPEN_BRACKET && mask[p] == Keep
          && (openers[k].image ==> 0 < p && line[p - 1] == BANG))
  }

  predicate LinksWellFormed(line: Line, mask: Mask, links: seq<Link>, index: nat)
    requires |line| == |mask|
  {
    forall k :: 0 <= k < |links| ==> LinkWellFormed(line, mask, links[k]) && links[k].end < index
  }

  /** No live opener lies within a recognised link. */
  predicate OpenersOutside(links: seq<Link>, openers: seq<Opener>) {
    forall i, k :: 0 <= i < |links| && 0 <= k < |openers| ==>
      links[i].end < openers[k].position || openers[k].position < links[i].open
  }

  predicate AllNested(links: seq<Link>) {
    forall i, j :: 0 <= i < j < |links| ==> Nested(links[i], links[j])
  }

  predicate MaskExact(before: Mask, after: Mask, links: seq<Link>) {
    && |before| == |after|
    && forall p :: 0 <= p < |after| ==> after[p] == if RemovedByText(links, p) then Drop else before[p]
  }

  predicate ScanSound(line: Line, mask: Mask, s: LinkScan)
    requires |line| == |mask|
  {
    && ScanFits(line, s)
    && AgreeFrom(mask, s.mask, s.index)
    && OpenersSound(line, mask, s.openers, s.index)
    && LinksWellFormed(line, mask, s.links, s.index)
    && OpenersOutside(s.links, s.openers)
    && AllNested(s.links)
    && MaskExact(mask, s.mask, s.links)
  }

  lemma RemovedByTextAppend(links: seq<Link>, l: Link, p: int)
    ensures RemovedByText(links + [l], p) <==> RemovedByText(links, p) || (!l.image && l.Removes(p))
  {
    var all := links + [l];
    if RemovedByText(links, p) {
      var k :| 0 <= k < |links| && !links[k].image && links[k].Removes(p);
      assert all[k].Removes(p);
    }
    if !l.image && l.Removes(p) {
      assert all[|links|].Removes(p);
    }
    if RemovedByText(all, p) {
      var k :| 0 <= k < |all| && !all[k].image && all[k].Removes(p);
      assert k == |links| || links[k].Removes(p);
    }
  }

  lemma NestedAppend(links: seq<Link>, openers: seq<Opener>, l: Link)
    requires AllNested(links) && |openers| > 0 && OpenersOutside(links, openers)
    requires l.open == openers[|openers| - 1].position
    requires forall k :: 0 <= k < |links| ==> links[k].end < l.close
    ensures AllNested(links + [l])
  {
    var all := links + [l];
    forall i, j | 0 <= i < j < |all|
      ensures Nested(all[i], all[j])
    {
      if j == |links| {
        assert all[i] == links[i];
        assert links[i].end < openers[|openers| - 1].position || openers[|openers| - 1].position < links[i].open;
      } else {
        assert Nested(links[i], links[j]);
      }
    }
  }

  lemma OutsideAppend(links: seq<Link>, openers: seq<Opener>, l: Link)
    requires |openers| > 0 && OpenersOutside(links, openers)
    requires forall i, j :: 0 <= i < j < |openers| ==> openers[i].position < openers[j].position
    requires l.open == openers[|openers| - 1].position
    ensures OpenersOutside(links + [l], openers[..|openers| - 1])
  {
  }

  lemma WellFormedAppend(line: Line, mask: Mask, links: seq<Link>, l: Link, index: nat)
    requires |line| == |mask| && LinksWellFormed(line, mask, links, index)
    requires LinkWellFormed(line, mask, l) && index <= l.end
    ensures LinksWellFormed(line, mask, links + [l], l.end + 1)
  {
  }

  lemma MaskAppend(before: Mask, after: Mask, links: seq<Link>, l: Link)
    requires MaskExact(before, after, links) && l.open < |after|
    ensures MaskExact(before,
      if l.image then after else Fill(after[l.open := Drop], Drop, l.close, l.end + 1), links + [l])
  {
    var next := if l.image then after else Fill(after[l.open := Drop], Drop, l.close, l.end + 1);
    forall p | 0 <= p < |next|
      ensures next[p] == if RemovedByText(links + [l], p) then Drop else before[p]
    {
      RemovedByTextAppend(links, l, p);
    }
  }

  /** Recognising one more link, whose opener is the innermost one, keeps everything sound. */
  lemma LinkFoundSound(line: Line, mask: Mask, s: LinkScan, end: nat, titles: TitleFinders)
    requires |line| == |mask| && ScanSound(line, mask, s) && |s.openers| > 0 && titles.Fits(|line|)
    requires s.index + 2 <= end < |line| && s.mask[s.index] == Keep && line[s.index] == CLOSE_BRACKET
    requires || (line[s.index + 1] == OPEN_PAREN && line[end] == CLOSE_PAREN)
             || (line[s.index + 1] == OPEN_BRACKET && line[end] == CLOSE_BRACKET)
    ensures ScanSound(line, mask, LinkFound(line, s, end, titles))
  {
    var opener := s.openers[|s.openers| - 1];
    var l := Link(opener.position, opener.image, s.index, end);
    assert LinkWellFormed(line, mask, l) by {
      assert line[opener.position] == OPEN_BRACKET;
      assert mask[s.index] == s.mask[s.index];
    }
    var r := LinkFound(line, s, end, titles);
    hide LinkWellFormed, RemovedByText, Nested;
    assert AgreeFrom(mask, r.mask, r.index);
    assert OpenersSound(line, mask, r.openers, r.index);
    assert LinksWellFormed(line, mask, r.links, r.index) by {
      WellFormedAppend(line, mask, s.links, l, s.index);
    }
    assert AllNested(r.links) by {
      NestedAppend(s.links, s.openers, l);
    }
    assert OpenersOutside(r.links, r.openers) by {
      OutsideAppend(s.links, s.openers, l);
    }
    assert MaskExact(mask, r.mask, r.links) by {
      MaskAppend(mask, s.mask, s.links, l);
    }
  }

  lemma LinkEndKind(line: Line, s: LinkScan)
    requires ScanFits(line, s) && s.index < |line| && LinkEnd(line, s).0 != -1
    ensures s.index + 2 <= LinkEnd(line, s).0 < |line|
    ensures var end := LinkEnd(line, s).0;
      || (line[s.index + 1] == OPEN_PAREN && line[end] == CLOSE_PAREN)
      || (line[s.index + 1] == OPEN_BRACKET && line[end] == CLOSE_BRACKET)
  {
  }

  /** Moving on, with the innermost opener popped or not, keeps everything sound. */
  lemma MoveOnSound(line: Line, mask: Mask, s: LinkScan, openers: seq<Opener>, titles: TitleFinders)
    requires |line| == |mask| && ScanSound(line, mask, s) && s.index < |line|
    requires openers <= s.openers && titles.Fits(|line|)
    ensures ScanSound(line, mask, s.(openers := openers, titles := titles, index := s.index + 1))
  {
    hide RemovedByText, Nested, LinkWellFormed;
  }

  lemma PushSound(line: Line, mask: Mask, s: LinkScan, opener: Opener)
    requires |line| == |mask| && ScanSound(line, mask, s) && s.index < |line|
    requires opener.position == s.index && line[s.index] == OPEN_BRACKET && s.mask[s.index] == Keep
    requires opener.image ==> 0 < s.index && line[s.index - 1] == BANG
    ensures ScanSound(line, mask, s.(openers := s.openers + [opener], index := s.index + 1))
  {
    hide RemovedByText, Nested, LinkWellFormed;
  }

  /** The end of a link is a closer of its own kind. */
  predicate EndFits(line: Line, s: LinkScan, end: int)
    requires ScanFits(line, s) && s.index < |line|
  {
    && s.index + 2 <= end < |line|
    && (|| (line[s.index + 1] == OPEN_PAREN && line[end] == CLOSE_PAREN)
        || (line[s.index + 1] == OPEN_BRACKET && line[end] == CLOSE_BRACKET))
  }

  lemma TakeStepSound(line: Line, mask: Mask, s: LinkScan, end: int, titles: TitleFinders)
    requires |line| == |mask| && ScanSound(line, mask, s) && s.index < |line| && titles.Fits(|line|)
    requires end == -1 || EndFits(line, s, end)
    ensures ScanSound(line, mask, TakeStep(line, s, end, titles))
  {
    assert ScanFits(line, s);
    hide LinkFound, ScanSound;
    var ch := line[s.index];
    if s.mask[s.index] != Keep || (ch != OPEN_BRACKET && ch != CLOSE_BRACKET) {
      MoveOnSound(line, mask, s, s.openers, s.titles);
    } else if ch == OPEN_BRACKET {
      var image := s.index > 0 && line[s.index - 1] == BANG && s.mask[s.index - 1] == Keep;
      PushSound(line, mask, s, Opener(s.index, image));
    } else if |s.openers| == 0 {
      MoveOnSound(line, mask, s, s.openers, s.titles);
    } else if end == -1 {
      MoveOnSound(line, mask, s, s.openers[..|s.openers| - 1], titles);
    } else {
      LinkFoundSound(line, mask, s, end, titles);
    }
  }

  lemma LinkStepSound(line: Line, mask: Mask, s: LinkScan)
    requires |line| == |mask| && ScanSound(line, mask, s) && s.index < |line|
    ensures ScanSound(line, mask, LinkStep(line, s))
  {
    assert ScanFits(line, s);
    hide LinkEnd, TakeStep, ScanSound;
    var (end, titles) := LinkEnd(line, s);
    if end != -1 {
      LinkEndKind(line, s);
    }
    TakeStepSound(line, mask, s, end, titles);
  }

  lemma {:induction false} LinkRunSound(line: Line, mask: Mask, s: LinkScan)
    requires |line| == |mask| && ScanSound(line, mask, s)
    ensures ScanSound(line, mask, LinkRun(line, s)) && LinkRun(line, s).index == |line|
    decreases |line| - s.index
  {
    if s.index < |line| {
      LinkStepSound(line, mask, s);
      LinkRunSound(line, mask, LinkStep(line, s));
    }
  }

  /** Every recognised link has kept brackets around its text and ends at its own kind of
      closer; any two links are disjoint or one lies in the text of the other. */
  lemma LinksNest(line: Line, mask: Mask)
    requires |line| == |mask|
    ensures var links := Links(line, mask);
      && (forall k :: 0 <= k < |links| ==> LinkWellFormed(line, mask, links[k]))
      && (forall i, j :: 0 <= i < j < |links| ==> Nested(links[i], links[j]))
  {
    LinkRunSound(line, mask, StartScan(mask));
  }

  // ---------------------------------------------------------------- the method

  predicate HasPair(line: Line, a: CodeUnit, b: CodeUnit) {
    exists k :: 0 <= k < |line| - 1 && line[k] == a && line[k + 1] == b
  }

  /** Without `](` or `][` there is nothing to recognise, whatever the brackets. */
  lemma {:induction false} NoPairNoLink(line: Line, s: LinkScan)
    requires ScanFits(line, s)
    requires !HasPair(line, CLOSE_BRACKET, OPEN_PAREN) && !HasPair(line, CLOSE_BRACKET, OPEN_BRACKET)
    ensures LinkRun(line, s).links == s.links && LinkRun(line, s).mask == s.mask
    decreases |line| - s.index
  {
    if s.index < |line| {
      if line[s.index] == CLOSE_BRACKET && s.index + 1 < |line| {
        assert line[s.index + 1] != OPEN_PAREN && line[s.index + 1] != OPEN_BRACKET;
      }
      NoPairNoLink(line, LinkStep(line, s));
    }
  }

  function ImageRanges(links: seq<Link>): seq<Range>
    requires forall k :: 0 <= k < |links| ==> links[k].image ==> 0 < links[k].open
  {
    if |links| == 0 then []
    else
      var last := links[|links| - 1];
      var before := ImageRanges(links[..|links| - 1]);
      if last.image then before + [Range(last.open - 1, last.end + 1)] else before
  }

  lemma {:induction false} ImageRangesCover(links: seq<Link>, p: int)
    requires forall k :: 0 <= k < |links| ==> links[k].image ==> 0 < links[k].open
    ensures Covered(ImageRanges(links), p) || RemovedByText(links, p) <==> Removed(links, p)
  {
    if |links| > 0 {
      var rest, last := links[..|links| - 1], links[|links| - 1];
      ImageRangesCover(rest, p);
      assert links == rest + [last];
      RemovedByTextAppend(rest, last, p);
      if last.image {
        CoveredAppend(ImageRanges(rest), Range(last.open - 1, last.end + 1), p);
      }
      if Removed(links, p) {
        var k :| 0 <= k < |links| && links[k].Removes(p);
        assert k == |rest| || rest[k].Removes(p);
      }
      if Removed(rest, p) {
        var k :| 0 <= k < |rest| && rest[k].Removes(p);
        assert links[k].Removes(p);
      }
    }
  }

  lemma {:induction false} ImageRangesEnd(links: seq<Link>, limit: nat)
    requires forall k :: 0 <= k < |links| ==> links[k].image ==> 0 < links[k].open
    requires forall k :: 0 <= k < |links| ==> links[k].end < limit
    requires forall i, j :: 0 <= i < j < |links| ==> links[i].end < links[j].end
    ensures EndsNondecreasing(ImageRanges(links), limit)
  {
    if |links| > 0 {
      ImageRangesEnd(links[..|links| - 1], links[|links| - 1].end);
    }
  }

  /** Painting the image ranges completes the removal of every link. */
  lemma ImagesComplete(line: Line, before: Mask, after: Mask, links: seq<Link>, painted: Mask)
    requires |line| == |before| == |painted| && MaskExact(before, after, links)
    requires LinksWellFormed(line, before, links, |line|)
    requires forall p :: 0 <= p < |painted| ==>
      painted[p] == if Covered(ImageRanges(links), p) then Drop else after[p]
    ensures forall p :: 0 <= p < |painted| ==>
      painted[p] == if Removed(links, p) then Drop else before[p]
  {
    forall p | 0 <= p < |painted|
      ensures painted[p] == if Removed(links, p) then Drop else before[p]
    {
      ImageRangesCover(links, p);
    }
  }

  lemma ImageRangesFit(line: Line, mask: Mask, links: seq<Link>)
    requires |line| == |mask| && LinksWellFormed(line, mask, links, |line|) && AllNested(links)
    ensures EndsNondecreasing(ImageRanges(links), |line|)
  {
    forall i, j | 0 <= i < j < |links|
      ensures links[i].end < links[j].end
    {
      assert Nested(links[i], links[j]);
      assert LinkWellFormed(line, mask, links[j]);
    }
    ImageRangesEnd(links, |line|);
  }

  /** Asks the scanner where the link whose text closes at `index` ends. */
  method EndOfLink(line: Line, mask: array<Flag>, scanner: LinkScanner, index: nat, ghost s: LinkScan)
    returns (end: int)
    requires index < |line| == mask.Length && scanner.line == line
    requires scanner.TablesBuilt() && scanner.ReadyAt(mask[..], index + 2)
    requires ScanFits(line, s) && s.index == index && s.mask == mask[..] && s.titles == scanner.titles
    modifies scanner
    ensures (end, scanner.titles) == LinkEnd(line, s)
    ensures scanner.ReadyAt(mask[..], index + 3)
  {
    hide AllHonest, ClosersFrom, OpensBefore, DestinationSpec, LabelSpec;
    end := -1;
    scanner.ReadyLater(mask[..], mask[..], index + 2, index + 3);
    if index + 1 < |line| && mask[index + 1] == Keep {
      if line[index + 1] == OPEN_PAREN {
        end := scanner.LinkDestinationEnd(mask, index + 2);
      } else if line[index + 1] == OPEN_BRACKET {
        end := scanner.ReferenceLabelEnd(mask, index + 2);
        scanner.ReadyLater(mask[..], mask[..], index + 2, index + 3);
      }
    }
  }

  /** Drops the opening bracket and everything from the closing one to the end of the link. */
  method EraseText(mask: array<Flag>, opener: nat, index: nat, end: nat)
    requires opener < mask.Length
    modifies mask
    ensures mask[..] == Fill(old(mask[..])[opener := Drop], Drop, index, end + 1)
  {
    mask[opener] := Drop;
    assert mask[..] == old(mask[..])[opener := Drop];
    FillArray(mask, Drop, index, end + 1);
  }

  lemma ImageRangesAppend(links: seq<Link>, l: Link)
    requires forall k :: 0 <= k < |links| ==> links[k].image ==> 0 < links[k].open
    requires l.image ==> 0 < l.open
    ensures ImageRanges(links + [l])
      == ImageRanges(links) + (if l.image then [Range(l.open - 1, l.end + 1)] else [])
  {
    assert (links + [l])[..|links|] == links;
  }

  lemma LinkRunUnfolds(line: Line, s: LinkScan)
    requires ScanFits(line, s) && s.index < |line|
    ensures LinkRun(line, s) == LinkRun(line, LinkStep(line, s))
  {
  }

  lemma LinkRunEnds(line: Line, s: LinkScan)
    requires ScanFits(line, s) && s.index == |line|
    ensures LinkRun(line, s) == s
  {
  }

  /** The loop's variables hold exactly the scan `s`, and the scanner is ready to go on. */
  ghost predicate Tracks(line: Line, mask: array<Flag>, scanner: LinkScanner, openers: seq<Opener>,
                         imageRanges: seq<Range>, index: nat, s: LinkScan)
    reads mask, scanner, scanner.closerAt, scanner.openParenBefore
    requires mask.Length == |line|
  {
    && s.index == index && s.mask == mask[..] && s.openers == openers && s.titles == scanner.titles
    && (forall k :: 0 <= k < |s.links| ==> s.links[k].image ==> 0 < s.links[k].open)
    && imageRanges == ImageRanges(s.links)
    && scanner.line == line && scanner.TablesBuilt() && scanner.ReadyAt(mask[..], index + 2)
  }

  /** The branch of the loop that meets a `]` while some `[` is open. */
  method CloseText(line: Line, mask: array<Flag>, scanner: LinkScanner, openers: seq<Opener>,
                   imageRanges: seq<Range>, index: nat, ghost s: LinkScan)
    returns (imageRanges': seq<Range>, index': nat)
    requires index < |line| == mask.Length && ScanFits(line, s)
    requires |openers| > 0 && mask[index] == Keep && line[index] == CLOSE_BRACKET
    requires Tracks(line, mask, scanner, openers, imageRanges, index, s)
    requires forall k :: 0 <= k < |openers| ==> openers[k].image ==> 0 < openers[k].position
    modifies mask, scanner
    ensures Tracks(line, mask, scanner, openers[..|openers| - 1], imageRanges', index', LinkStep(line, s))
  {
    hide LinkEnd, AllHonest, ClosersFrom, OpensBefore, ImageRanges;
    imageRanges' := imageRanges;
    var opener := openers[|openers| - 1];
    ghost var before := mask[..];
    var end := EndOfLink(line, mask, scanner, index, s);
    if end == -1 {
      index' := index + 1;
    } else {
      ImageRangesAppend(s.links, Link(opener.position, opener.image, index, end));
      if opener.image {
        imageRanges' := imageRanges + [Range(opener.position - 1, end + 1)];
      } else {
        EraseText(mask, opener.position, index, end);
      }
      index' := end + 1;
      scanner.ReadyLater(before, mask[..], index + 3, index' + 2);
    }
  }

  /** Characters other than kept brackets, and a `]` with nothing open, are passed over. */
  lemma PassOver(line: Line, mask: array<Flag>, scanner: LinkScanner, openers: seq<Opener>,
                 imageRanges: seq<Range>, index: nat, s: LinkScan)
    requires index < |line| == mask.Length && ScanFits(line, s)
    requires Tracks(line, mask, scanner, openers, imageRanges, index, s)
    requires || mask[index] != Keep
             || (line[index] != OPEN_BRACKET && (line[index] != CLOSE_BRACKET || |openers| == 0))
    ensures Tracks(line, mask, scanner, openers, imageRanges, index + 1, LinkStep(line, s))
  {
    hide LinkEnd, AllHonest, ClosersFrom, OpensBefore, ImageRanges;
    scanner.ReadyLater(mask[..], mask[..], index + 2, index + 3);
  }

  lemma PushOpener(line: Line, mask: array<Flag>, scanner: LinkScanner, openers: seq<Opener>,
                   imageRanges: seq<Range>, index: nat, s: LinkScan)
    requires index < |line| == mask.Length && ScanFits(line, s)
    requires Tracks(line, mask, scanner, openers, imageRanges, index, s)
    requires mask[index] == Keep && line[index] == OPEN_BRACKET
    ensures
      var image := index > 0 && line[index - 1] == BANG && mask[index - 1] == Keep;
      Tracks(line, mask, scanner, openers + [Opener(index, image)], imageRanges, index + 1, LinkStep(line, s))
  {
    hide LinkEnd, AllHonest, ClosersFrom, OpensBefore, ImageRanges;
    scanner.ReadyLater(mask[..], mask[..], index + 2, index + 3);
  }

  lemma StartSound(line: Line, mask: Mask)
    requires |line| == |mask|
    ensures ScanSound(line, mask, StartScan(mask))
  {
  }

  lemma ImageOpenersFollow(line: Line, mask: Mask, s: LinkScan)
    requires |line| == |mask| && ScanSound(line, mask, s)
    ensures ScanFits(line, s)
    ensures forall k :: 0 <= k < |s.openers| ==> s.openers[k].image ==> 0 < s.openers[k].position
  {
  }

  /** One turn of the loop. */
  method Advance(line: Line, mask: array<Flag>, scanner: LinkScanner, openers: seq<Opener>,
                 imageRanges: seq<Range>, index: nat, ghost s: LinkScan)
    returns (openers': seq<Opener>, imageRanges': seq<Range>, index': nat)
    requires index < |line| == mask.Length && ScanFits(line, s)
    requires Tracks(line, mask, scanner, openers, imageRanges, index, s)
    requires forall k :: 0 <= k < |openers| ==> openers[k].image ==> 0 < openers[k].position
    modifies mask, scanner
    ensures Tracks(line, mask, scanner, openers', imageRanges', index', LinkStep(line, s))
  {
    hide LinkStep, LinkScanner.ReadyAt, LinkScanner.TablesBuilt;
    openers', imageRanges', index' := openers, imageRanges, index + 1;
    var ch := line[index];
    if mask[index] != Keep || (ch != OPEN_BRACKET && ch != CLOSE_BRACKET) {
      PassOver(line, mask, scanner, openers, imageRanges, index, s);
    } else if ch == OPEN_BRACKET {
      PushOpener(line, mask, scanner, openers, imageRanges, index, s);
      var image := index > 0 && line[index - 1] == BANG && mask[index - 1] == Keep;
      openers' := openers + [Opener(index, image)];
    } else if |openers| == 0 {
      PassOver(line, mask, scanner, openers, imageRanges, index, s);
    } else {
      imageRanges', index' := CloseText(line, mask, scanner, openers, imageRanges, index, s);
      openers' := openers[..|openers| - 1];
    }
  }

  /** The loop of the pass. Text links are erased on the way, image ranges are collected. */
  method ScanLinks(line: Line, mask: array<Flag>) returns (imageRanges: seq<Range>, ghost s: LinkScan)
    requires mask.Length == |line|
    modifies mask
    ensures s == LinkRun(line, StartScan(old(mask[..])))
    ensures mask[..] == s.mask
    ensures forall k :: 0 <= k < |s.links| ==> s.links[k].image ==> 0 < s.links[k].open
    ensures imageRanges == ImageRanges(s.links)
  {
    assert ImageRanges([]) == [];
    hide LinkStep, LinkRun, ScanSound, LinkScanner.ReadyAt, LinkScanner.TablesBuilt, ImageRanges;
    ghost var start := mask[..];
    s := StartScan(start);
    var scanner := new LinkScanner(line, mask);
    scanner.ReadyLater(start, start, 0, 2);
    var openers: seq<Opener> := [];
    imageRanges := [];
    var index := 0;
    StartSound(line, start);
    while index < |line|
      invariant fresh(scanner) && fresh(scanner.closerAt) && fresh(scanner.openParenBefore)
      invariant ScanFits(line, s)
      invariant Tracks(line, mask, scanner, openers, imageRanges, index, s)
      invariant ScanSound(line, start, s)
      invariant LinkRun(line, s) == LinkRun(line, StartScan(start))
      decreases |line| - index
    {
      LinkStepSound(line, start, s);
      LinkRunUnfolds(line, s);
      ImageOpenersFollow(line, start, s);
      openers, imageRanges, index := Advance(line, mask, scanner, openers, imageRanges, index, s);
      s := LinkStep(line, s);
    }
    LinkRunEnds(line, s);
  }

  /** The whole pass: a position is dropped exactly when some recognised link removes it. */
  method MarkLinks(line: Line, mask: array<Flag>)
    requires mask.Length == |line|
    modifies mask
    ensures forall p :: 0 <= p < |line| ==>
      mask[p] == if Removed(Links(line, old(mask[..])), p) then Drop else old(mask[p])
  {
    hide LinkRun, ImageRanges;
    ghost var start := mask[..];
    if !HasPair(line, CLOSE_BRACKET, OPEN_PAREN) && !HasPair(line, CLOSE_BRACKET, OPEN_BRACKET) {
      NoPairNoLink(line, StartScan(start));
      return;
    }
    LinkRunSound(line, start, StartScan(start));
    var imageRanges, s := ScanLinks(line, mask);
    ImageRangesFit(line, start, s.links);
    FillRanges(mask, Drop, imageRanges);
    ImagesComplete(line, start, s.mask, s.links, mask[..]);
  }
}
