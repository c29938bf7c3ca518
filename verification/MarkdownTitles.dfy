/** The title tail of a link destination. The finder that looks for the next non-whitespace
    character is asked before the title and again behind it, so after a failed link it can
    remember a character beyond the next question. Here is exactly when that matters: for one
    tail, and for the whole pass. */
module MarkdownTitles {
  import opened Basics
  import opened MarkdownBase
  import opened MarkdownDestination
  import opened MarkdownLinks

  // ---------------------------------------------------------------- reading afresh

  /** Where the tail ends whose first character is at `titleStart`, every search made afresh. */
  function TailFrom(line: Line, mask: Mask, titleStart: int): (r: int)
    requires |line| == |mask| && -1 <= titleStart < |line|
    ensures r == -1 || (titleStart <= r < |line| && line[r] == CLOSE_PAREN)
  {
    if titleStart == -1 then -1
    else
      var quote := line[titleStart];
      if quote == CLOSE_PAREN then titleStart
      else if !IsQuote(quote) then -1
      else
        var titleEnd := NextMatch(line, mask, Only(quote), titleStart + 1);
        if titleEnd == -1 then -1
        else
          var close := NextMatch(line, mask, NonWhitespace, titleEnd + 1);
          if close != -1 && line[close] == CLOSE_PAREN then close else -1
  }

  /** The title tail with every search made afresh. */
  function NaiveTail(line: Line, mask: Mask, cursor: nat): int
    requires |line| == |mask|
  {
    TailFrom(line, mask, NextMatch(line, mask, NonWhitespace, cursor))
  }

  /** How far that reading looks for a non-whitespace character: just past the last one it found,
      or beyond the line when it ran out. */
  function ReadTo(line: Line, mask: Mask, titleStart: int): (r: nat)
    requires |line| == |mask| && -1 <= titleStart < |line|
    ensures titleStart < r <= |line| + 1
  {
    if titleStart == -1 then |line| + 1
    else if !IsQuote(line[titleStart]) then titleStart + 1
    else
      var titleEnd := NextMatch(line, mask, Only(line[titleStart]), titleStart + 1);
      if titleEnd == -1 then titleStart + 1
      else
        var close := NextMatch(line, mask, NonWhitespace, titleEnd + 1);
        if close == -1 then |line| + 1 else close + 1
  }

  /** Two different characters never start tails with one end, unless the later one is the end. */
  lemma TailsApart(line: Line, mask: Mask, n: nat, t: nat)
    requires |line| == |mask| && n < t < |line| && line[t] != CLOSE_PAREN
    requires Hit(line, mask, NonWhitespace, n) && Hit(line, mask, NonWhitespace, t)
    ensures TailFrom(line, mask, n) == -1 || TailFrom(line, mask, n) != TailFrom(line, mask, t)
  {
    var p := TailFrom(line, mask, n);
    if p != -1 && p == TailFrom(line, mask, t) {
      var e := NextMatch(line, mask, Only(line[n]), n + 1);
      var f := NextMatch(line, mask, Only(line[t]), t + 1);
      QuoteIsNotBlank(line, mask, e);
      QuoteIsNotBlank(line, mask, f);
      assert Hit(line, mask, Only(line[t]), t);
    }
  }

  lemma QuoteIsNotBlank(line: Line, mask: Mask, k: nat)
    requires |line| == |mask| && k < |line| && mask[k] == Keep && IsQuote(line[k])
    ensures Hit(line, mask, NonWhitespace, k)
  {
  }

  // ---------------------------------------------------------------- what the finders remember

  /** The memory of the non-whitespace finder as one number: how far the line has been looked at. */
  predicate Remembers(st: Finder, reach: nat, length: nat) {
    FinderFits(st, length) && reach == if st.exhausted then length + 1 else st.cached + 1
  }

  /** What the finder answers at `cursor` when the line has been looked at up to `reach`. */
  function FirstAnswer(line: Line, mask: Mask, reach: nat, cursor: nat): (r: int)
    requires |line| == |mask| && reach <= |line| + 1
    ensures r == -1 || cursor <= r < |line|
  {
    if reach == |line| + 1 then -1
    else if reach > cursor then reach - 1
    else NextMatch(line, mask, NonWhitespace, cursor)
  }

  function Max(a: nat, b: int): nat {
    if a < b then b else a
  }

  /** What holds of the three finders whenever the cursor is at `low`: a character remembered
      there or ahead is no parenthesis, and the quote finders are right wherever they will be
      asked next. */
  predicate TitlesSound(line: Line, mask: Mask, st: TitleFinders, low: nat)
    requires |line| == |mask|
  {
    && st.Fits(|line|)
    && (!st.nonWhitespace.exhausted && st.nonWhitespace.cached >= low ==>
          && Hit(line, mask, NonWhitespace, st.nonWhitespace.cached)
          && line[st.nonWhitespace.cached] != CLOSE_PAREN)
    && Honest(line, mask, Only(DOUBLE_QUOTE), st.doubleQuote, Max(low, st.nonWhitespace.cached + 1))
    && Honest(line, mask, Only(SINGLE_QUOTE), st.singleQuote, Max(low, st.nonWhitespace.cached + 1))
  }

  lemma TitlesSoundLater(line: Line, mask: Mask, mask': Mask, st: TitleFinders, low: nat, low': nat)
    requires |line| == |mask| && TitlesSound(line, mask, st, low)
    requires low <= low' && AgreeFrom(mask, mask', low')
    ensures TitlesSound(line, mask', st, low')
  {
    hide Honest;
    var before, after := Max(low, st.nonWhitespace.cached + 1), Max(low', st.nonWhitespace.cached + 1);
    HonestLater(line, mask, mask', Only(DOUBLE_QUOTE), st.doubleQuote, before, after);
    HonestLater(line, mask, mask', Only(SINGLE_QUOTE), st.singleQuote, before, after);
  }

  /** The non-whitespace finder, asked at or ahead of the cursor. */
  lemma BlankAsked(line: Line, mask: Mask, st: Finder, reach: nat, from: nat)
    requires |line| == |mask| && Remembers(st, reach, |line|)
    requires !st.exhausted && st.cached >= from ==> Hit(line, mask, NonWhitespace, st.cached)
    ensures var (r, st') := FindSpec(line, mask, NonWhitespace, st, from);
      && r == FirstAnswer(line, mask, reach, from)
      && st.cached <= st'.cached
      && (if r == -1 then st'.exhausted && st'.cached == st.cached
          else st' == Finder(r, false) && Hit(line, mask, NonWhitespace, r))
  {
    hide CharClass.Matches;
  }

  /** A finder of quotes, asked where its memory is right. */
  lemma QuoteAsked(line: Line, mask: Mask, quote: CodeUnit, st: Finder, low: nat, from: nat)
    requires |line| == |mask| && Honest(line, mask, Only(quote), st, low) && low <= from
    ensures FindSpec(line, mask, Only(quote), st, from).0 == NextMatch(line, mask, Only(quote), from)
    ensures Honest(line, mask, Only(quote), FindSpec(line, mask, Only(quote), st, from).1, from)
  {
    HonestLater(line, mask, mask, Only(quote), st, low, from);
    HonestAnswer(line, mask, Only(quote), st, from);
  }

  /** Soundness of finders whose memory has grown from sound ones. */
  lemma GrownSound(line: Line, mask: Mask, st: TitleFinders, double: nat, single: nat, low: nat)
    requires |line| == |mask| && st.Fits(|line|)
    requires !st.nonWhitespace.exhausted && st.nonWhitespace.cached >= low ==>
      Hit(line, mask, NonWhitespace, st.nonWhitespace.cached) && line[st.nonWhitespace.cached] != CLOSE_PAREN
    requires Honest(line, mask, Only(DOUBLE_QUOTE), st.doubleQuote, double)
    requires Honest(line, mask, Only(SINGLE_QUOTE), st.singleQuote, single)
    requires double <= Max(low, st.nonWhitespace.cached + 1) && single <= Max(low, st.nonWhitespace.cached + 1)
    ensures TitlesSound(line, mask, st, low)
  {
    hide Honest;
    var ahead := Max(low, st.nonWhitespace.cached + 1);
    HonestLater(line, mask, mask, Only(DOUBLE_QUOTE), st.doubleQuote, double, ahead);
    HonestLater(line, mask, mask, Only(SINGLE_QUOTE), st.singleQuote, single, ahead);
  }

  lemma QuotedByMemory(line: Line, mask: Mask, first: nat, st: TitleFinders, low: nat, from: nat)
    requires first < |line| == |mask| && st.Fits(|line|) && IsQuote(line[first])
    requires st.nonWhitespace == Finder(first, false) && Hit(line, mask, NonWhitespace, first)
    requires low <= first && from <= first + 1
    requires Honest(line, mask, Only(DOUBLE_QUOTE), st.doubleQuote, from)
    requires Honest(line, mask, Only(SINGLE_QUOTE), st.singleQuote, from)
    ensures var (end, st') := QuotedTail(line, mask, first, st);
      && end == TailFrom(line, mask, first)
      && Remembers(st'.nonWhitespace, ReadTo(line, mask, first), |line|)
      && TitlesSound(line, mask, st', if end == -1 then low else end + 1)
  {
    hide Honest, NextMatch, CharClass.Matches, FindSpec, TitlesSound;
    var quote := line[first];
    var finder := if quote == DOUBLE_QUOTE then st.doubleQuote else st.singleQuote;
    QuoteAsked(line, mask, quote, finder, from, first + 1);
    var (titleEnd, quotes) := FindSpec(line, mask, Only(quote), finder, first + 1);
    if titleEnd != -1 {
      BlankAsked(line, mask, st.nonWhitespace, first + 1, titleEnd + 1);
    }
    var (end, st') := QuotedTail(line, mask, first, st);
    GrownSound(line, mask, st', if quote == DOUBLE_QUOTE then first + 1 else from,
               if quote == DOUBLE_QUOTE then from else first + 1, if end == -1 then low else end + 1);
  }

  /** With sound memory a tail is the reading from the first answer, and memory stays sound. */
  lemma TailByMemory(line: Line, mask: Mask, cursor: nat, st: TitleFinders, low: nat, reach: nat)
    requires |line| == |mask| && low <= cursor && TitlesSound(line, mask, st, low)
    requires Remembers(st.nonWhitespace, reach, |line|)
    ensures var (end, st') := TitleTail(line, mask, cursor, st);
      var first := FirstAnswer(line, mask, reach, cursor);
      && end == TailFrom(line, mask, first)
      && Remembers(st'.nonWhitespace, ReadTo(line, mask, first), |line|)
      && TitlesSound(line, mask, st', if end == -1 then low else end + 1)
  {
    hide Honest, NextMatch, CharClass.Matches, FindSpec, FirstAnswer;
    var from := Max(low, st.nonWhitespace.cached + 1);
    BlankAsked(line, mask, st.nonWhitespace, reach, cursor);
    var (first, blanks) := FindSpec(line, mask, NonWhitespace, st.nonWhitespace, cursor);
    var st1 := st.(nonWhitespace := blanks);
    if first == -1 || !IsQuote(line[first]) {
      GrownSound(line, mask, st1, from, from, if TitleTail(line, mask, cursor, st).0 == -1 then low else first + 1);
    } else {
      QuotedByMemory(line, mask, first, st1, low, from);
    }
  }

  predicate TitlesHonest(line: Line, mask: Mask, st: TitleFinders, cursor: nat)
    requires |line| == |mask|
  {
    && Honest(line, mask, NonWhitespace, st.nonWhitespace, cursor)
    && Honest(line, mask, Only(DOUBLE_QUOTE), st.doubleQuote, cursor)
    && Honest(line, mask, Only(SINGLE_QUOTE), st.singleQuote, cursor)
  }

  /** With honest memory, whatever its history, the tail is the naive one. */
  lemma TailWhenHonest(line: Line, mask: Mask, cursor: nat, st: TitleFinders)
    requires |line| == |mask| && st.Fits(|line|) && TitlesHonest(line, mask, st, cursor)
    ensures TitleTail(line, mask, cursor, st).0 == NaiveTail(line, mask, cursor)
  {
    hide Honest, NextMatch, FindSpec, CharClass.Matches;
    HonestAnswer(line, mask, NonWhitespace, st.nonWhitespace, cursor);
    var (first, blanks) := FindSpec(line, mask, NonWhitespace, st.nonWhitespace, cursor);
    if first != -1 && IsQuote(line[first]) {
      var quote := line[first];
      var finder := if quote == DOUBLE_QUOTE then st.doubleQuote else st.singleQuote;
      QuoteAsked(line, mask, quote, finder, cursor, first + 1);
      var titleEnd := NextMatch(line, mask, Only(quote), first + 1);
      if titleEnd != -1 {
        HonestLater(line, mask, mask, NonWhitespace, blanks, cursor, titleEnd + 1);
        HonestAnswer(line, mask, NonWhitespace, blanks, titleEnd + 1);
      }
    }
  }

  // ---------------------------------------------------------------- one tail, exactly

  /** The tail answers the same from both characters: they are one, or it rejects both. */
  predicate SameTail(line: Line, mask: Mask, t: int, n: int)
    requires |line| == |mask| && -1 <= t < |line| && -1 <= n < |line|
  {
    t == n || (TailFrom(line, mask, t) == -1 && TailFrom(line, mask, n) == -1)
  }

  /** A remembered character that is not the first one from `cursor` on changes the answer,
      unless the tail is rejected from both. */
  lemma AnswersApart(line: Line, mask: Mask, st: TitleFinders, low: nat, reach: nat, cursor: nat)
    requires |line| == |mask| && low <= cursor && TitlesSound(line, mask, st, low)
    requires Remembers(st.nonWhitespace, reach, |line|)
    ensures var t, n := FirstAnswer(line, mask, reach, cursor), NextMatch(line, mask, NonWhitespace, cursor);
      TailFrom(line, mask, t) == TailFrom(line, mask, n) <==> SameTail(line, mask, t, n)
  {
    var t, n := FirstAnswer(line, mask, reach, cursor), NextMatch(line, mask, NonWhitespace, cursor);
    hide TailFrom, Honest, CharClass.Matches;
    if t != n && t != -1 {
      TailsApart(line, mask, n, t);
    }
  }

  /** In every state the pass can reach, the title tail is the naive one exactly when its first
      question is answered with the first non-whitespace character, or both readings reject. */
  lemma TailExactly(line: Line, mask: Mask, cursor: nat, st: TitleFinders, low: nat)
    requires |line| == |mask| && low <= cursor && TitlesSound(line, mask, st, low)
    ensures var first := FindSpec(line, mask, NonWhitespace, st.nonWhitespace, cursor).0;
      TitleTail(line, mask, cursor, st).0 == NaiveTail(line, mask, cursor)
      <==> SameTail(line, mask, first, NextMatch(line, mask, NonWhitespace, cursor))
  {
    var reach := if st.nonWhitespace.exhausted then |line| + 1 else st.nonWhitespace.cached + 1;
    TailByMemory(line, mask, cursor, st, low, reach);
    AnswersApart(line, mask, st, low, reach, cursor);
    BlankAsked(line, mask, st.nonWhitespace, reach, cursor);
    hide TailFrom, NextMatch, FindSpec, TitleTail;
  }

  /** Where the destination that starts at `from` ends, every search made afresh. */
  function NaiveDestination(line: Line, mask: Mask, from: nat): (r: int)
    requires |line| == |mask| && from <= |line|
    ensures r == -1 || (from <= r < |line| && line[r] == CLOSE_PAREN)
  {
    match Lead(line, mask, from)
    case Closes(at) => at
    case ToTitle(cursor) => NaiveTail(line, mask, cursor)
    case Rejected => -1
  }

  /** The same for a whole destination: only its title tail can be misled. */
  lemma DestinationExactly(line: Line, mask: Mask, from: nat, st: TitleFinders, low: nat)
    requires |line| == |mask| && low <= from <= |line| && TitlesSound(line, mask, st, low)
    ensures DestinationSpec(line, mask, from, st).0 == NaiveDestination(line, mask, from)
      <==> (Lead(line, mask, from).ToTitle? ==>
              var cursor := Lead(line, mask, from).at;
              SameTail(line, mask, FindSpec(line, mask, NonWhitespace, st.nonWhitespace, cursor).0,
                       NextMatch(line, mask, NonWhitespace, cursor)))
  {
    hide Lead, TitleTail, NaiveTail, TitlesSound, SameTail, FindSpec, NextMatch;
    if Lead(line, mask, from).ToTitle? {
      TailExactly(line, mask, Lead(line, mask, from).at, st, low);
    }
  }

  // ---------------------------------------------------------------- the naive pass

  /** Where the link whose text closes at the cursor ends, every search made afresh. */
  function NaiveEnd(line: Line, s: LinkScan): (r: int)
    requires ScanFits(line, s) && s.index < |line|
    ensures r == -1 || s.index + 2 <= r < |line|
  {
    if s.index + 1 < |line| && s.mask[s.index + 1] == Keep then
      if line[s.index + 1] == OPEN_PAREN then NaiveDestination(line, s.mask, s.index + 2)
      else if line[s.index + 1] == OPEN_BRACKET then LabelSpec(line, s.mask, s.index + 2)
      else -1
    else -1
  }

  function NaiveStep(line: Line, s: LinkScan): (r: LinkScan)
    requires ScanFits(line, s) && s.index < |line|
    ensures ScanFits(line, r) && s.index < r.index && r.titles == s.titles
  {
    TakeStep(line, s, NaiveEnd(line, s), s.titles)
  }

  function NaiveRun(line: Line, s: LinkScan): (r: LinkScan)
    requires ScanFits(line, s)
    decreases |line| - s.index
  {
    if s.index == |line| then s else NaiveRun(line, NaiveStep(line, s))
  }

  /** The links of a paragraph for a pass that remembers nothing. */
  function NaiveLinks(line: Line, mask: Mask): seq<Link>
    requires |line| == |mask|
  {
    NaiveRun(line, StartScan(mask)).links
  }

  // ---------------------------------------------------------------- the two passes side by side

  /** A kept `]` with a kept `(` behind it. */
  predicate OpensDestination(line: Line, mask: Mask, i: nat)
    requires |line| == |mask|
  {
    i + 1 < |line| && mask[i] == Keep && line[i] == CLOSE_BRACKET && mask[i + 1] == Keep && line[i + 1] == OPEN_PAREN
  }

  /** Where the title tail begins that this turn of the loop reads, if it reads one. */
  function TitleCursor(line: Line, s: LinkScan): (r: Option<nat>)
    requires ScanFits(line, s) && s.index < |line|
    ensures r.Some? ==> AtLinkText(line, s) && s.index + 2 <= r.value
  {
    if AtLinkText(line, s) && OpensDestination(line, s.mask, s.index) then
      match Lead(line, s.mask, s.index + 2) case ToTitle(cursor) => Some(cursor) case _ => None
    else None
  }

  /** How far the line has been looked at after this turn. */
  function ReachAfter(line: Line, s: LinkScan, reach: nat): (r: nat)
    requires ScanFits(line, s) && s.index < |line| && reach <= |line| + 1
    ensures r <= |line| + 1
  {
    match TitleCursor(line, s)
    case Some(cursor) => ReadTo(line, s.mask, FirstAnswer(line, s.mask, reach, cursor))
    case None => reach
  }

  /** This turn is not misled by what was looked at before: the tail it reads begins behind all
      of that, or at the very last character of it, or is rejected either way. */
  predicate NotMisled(line: Line, s: LinkScan, reach: nat)
    requires ScanFits(line, s) && s.index < |line| && reach <= |line| + 1
  {
    match TitleCursor(line, s)
    case Some(cursor) =>
      SameTail(line, s.mask, FirstAnswer(line, s.mask, reach, cursor), NextMatch(line, s.mask, NonWhitespace, cursor))
    case None => true
  }

  predicate NeverMisled(line: Line, s: LinkScan, reach: nat)
    requires ScanFits(line, s) && reach <= |line| + 1
    decreases |line| - s.index
  {
    s.index == |line|
    || (NotMisled(line, s, reach) && NeverMisled(line, NaiveStep(line, s), ReachAfter(line, s, reach)))
  }

  /** The two passes agree on everything but memory, and `reach` is what that memory amounts to. */
  predicate Coupled(line: Line, s: LinkScan, n: LinkScan, reach: nat) {
    && ScanFits(line, s) && n == s.(titles := n.titles) && n.titles.Fits(|line|)
    && Remembers(s.titles.nonWhitespace, reach, |line|)
    && TitlesSound(line, s.mask, s.titles, s.index)
  }

  /** What the scanner answers, in terms of the memory, and that its memory stays sound. */
  lemma EndByMemory(line: Line, s: LinkScan, reach: nat)
    requires Coupled(line, s, s, reach) && s.index < |line| && AtLinkText(line, s)
    ensures var (end, titles) := LinkEnd(line, s);
      && Remembers(titles.nonWhitespace, ReachAfter(line, s, reach), |line|)
      && TitlesSound(line, s.mask, titles, Max(s.index + 1, end + 1))
      && end == match TitleCursor(line, s)
                case Some(cursor) => TailFrom(line, s.mask, FirstAnswer(line, s.mask, reach, cursor))
                case None => NaiveEnd(line, s)
  {
    hide TailFrom, ReadTo, FirstAnswer, TitleTail, TitlesSound, Lead, NextMatch;
    var (end, titles) := LinkEnd(line, s);
    TitlesSoundLater(line, s.mask, s.mask, s.titles, s.index, Max(s.index + 1, end + 1));
    match TitleCursor(line, s)
    case Some(cursor) =>
      TailByMemory(line, s.mask, cursor, s.titles, s.index, reach);
      if end == -1 {
        TitlesSoundLater(line, s.mask, s.mask, titles, s.index, s.index + 1);
      }
    case None =>
  }

  /** Turns that are not misled keep the two passes together. */
  lemma StepCoupled(line: Line, s: LinkScan, n: LinkScan, reach: nat)
    requires Coupled(line, s, n, reach) && s.index < |line| && NotMisled(line, n, reach)
    ensures Coupled(line, LinkStep(line, s), NaiveStep(line, n), ReachAfter(line, n, reach))
  {
    hide TitlesSound, FirstAnswer, ReadTo, TailFrom, NextMatch, LinkEnd, Lead, Remembers, FinderFits;
    var (end, titles) := LinkEnd(line, s);
    var next := LinkStep(line, s);
    if AtLinkText(line, s) {
      EndByMemory(line, s, reach);
      TitlesSoundLater(line, s.mask, next.mask, titles, Max(s.index + 1, end + 1), next.index);
    } else {
      TitlesSoundLater(line, s.mask, next.mask, s.titles, s.index, next.index);
    }
  }

  lemma {:induction false} LinkRunAppends(line: Line, s: LinkScan)
    requires ScanFits(line, s)
    ensures s.links <= LinkRun(line, s).links
    ensures forall k :: |s.links| <= k < |LinkRun(line, s).links| ==> LinkRun(line, s).links[k].close >= s.index
    decreases |line| - s.index
  {
    hide LinkEnd;
    if s.index < |line| {
      LinkRunAppends(line, LinkStep(line, s));
    }
  }

  lemma {:induction false} NaiveRunAppends(line: Line, s: LinkScan)
    requires ScanFits(line, s)
    ensures s.links <= NaiveRun(line, s).links
    ensures forall k :: |s.links| <= k < |NaiveRun(line, s).links| ==> NaiveRun(line, s).links[k].close >= s.index
    decreases |line| - s.index
  {
    hide NaiveEnd;
    if s.index < |line| {
      NaiveRunAppends(line, NaiveStep(line, s));
    }
  }

  lemma MisledEndsApart(line: Line, s: LinkScan, n: LinkScan, reach: nat)
    requires Coupled(line, s, n, reach) && s.index < |line| && !NotMisled(line, n, reach)
    ensures AtLinkText(line, s) && LinkEnd(line, s).0 != NaiveEnd(line, n)
  {
    hide TitlesSound, FirstAnswer, ReadTo, TailFrom, NextMatch, LinkEnd, Lead, Remembers;
    EndByMemory(line, s, reach);
    AnswersApart(line, s.mask, s.titles, s.index, reach, TitleCursor(line, s).value);
  }

  /** What is recognised at the cursor is recognised for good. */
  lemma FoundForGood(line: Line, s: LinkScan, n: LinkScan)
    requires ScanFits(line, s) && ScanFits(line, n) && s.index < |line| && n.index == s.index
    requires n.links == s.links && AtLinkText(line, s) && AtLinkText(line, n)
    requires LinkEnd(line, s).0 != NaiveEnd(line, n)
    ensures LinkRun(line, LinkStep(line, s)).links != NaiveRun(line, NaiveStep(line, n)).links
  {
    hide LinkEnd, NaiveEnd, LinkRun, NaiveRun;
    var a, b := LinkStep(line, s), NaiveStep(line, n);
    LinkRunAppends(line, a);
    NaiveRunAppends(line, b);
    var k := |s.links|;
    if LinkEnd(line, s).0 != -1 {
      assert LinkRun(line, a).links[k] == a.links[k];
    }
    if NaiveEnd(line, n) != -1 {
      assert NaiveRun(line, b).links[k] == b.links[k];
    }
  }

  /** Once misled the two passes never come to the same links. */
  lemma MisledForGood(line: Line, s: LinkScan, n: LinkScan, reach: nat)
    requires Coupled(line, s, n, reach) && s.index < |line| && !NotMisled(line, n, reach)
    ensures LinkRun(line, s).links != NaiveRun(line, n).links
  {
    hide TitlesSound, NotMisled, LinkEnd, NaiveEnd, LinkStep, NaiveStep, Remembers;
    MisledEndsApart(line, s, n, reach);
    FoundForGood(line, s, n);
  }

  lemma {:induction false} RunsExactly(line: Line, s: LinkScan, n: LinkScan, reach: nat)
    requires Coupled(line, s, n, reach) && reach <= |line| + 1
    ensures LinkRun(line, s).links == NaiveRun(line, n).links <==> NeverMisled(line, n, reach)
    decreases |line| - s.index
  {
    hide Coupled, LinkStep, NaiveStep, NotMisled, ReachAfter;
    CoupledMeans(line, s, n, reach);
    if s.index < |line| {
      if NotMisled(line, n, reach) {
        StepCoupled(line, s, n, reach);
        RunsExactly(line, LinkStep(line, s), NaiveStep(line, n), ReachAfter(line, n, reach));
      } else {
        MisledForGood(line, s, n, reach);
      }
    }
  }

  lemma CoupledMeans(line: Line, s: LinkScan, n: LinkScan, reach: nat)
    requires Coupled(line, s, n, reach)
    ensures s.index == n.index && s.links == n.links && ScanFits(line, s) && ScanFits(line, n)
  {
  }

  lemma StartCoupled(line: Line, mask: Mask)
    requires |line| == |mask|
    ensures Coupled(line, StartScan(mask), StartScan(mask), 0)
  {
  }

  /** The pass finds the links of a pass that remembers nothing exactly when no title tail on the
      way begins before a character that an earlier tail has looked past, other than to be
      rejected either way. */
  lemma LinksNaiveExactly(line: Line, mask: Mask)
    requires |line| == |mask|
    ensures Links(line, mask) == NaiveLinks(line, mask) <==> NeverMisled(line, StartScan(mask), 0)
  {
    StartCoupled(line, mask);
    RunsExactly(line, StartScan(mask), StartScan(mask), 0);
  }

  // ---------------------------------------------------------------- memory along the pass

  /** In every state from `s` on the finders of the title tail are sound. */
  predicate StaysSound(line: Line, s: LinkScan)
    requires ScanFits(line, s)
    decreases |line| - s.index
  {
    TitlesSound(line, s.mask, s.titles, s.index) && (s.index == |line| || StaysSound(line, LinkStep(line, s)))
  }

  lemma {:induction false} SoundStays(line: Line, s: LinkScan)
    requires ScanFits(line, s) && TitlesSound(line, s.mask, s.titles, s.index)
    ensures StaysSound(line, s)
    decreases |line| - s.index
  {
    hide TitlesSound, LinkEnd, FirstAnswer, TailFrom, ReadTo;
    if s.index < |line| {
      var next := LinkStep(line, s);
      if AtLinkText(line, s) {
        var (end, titles) := LinkEnd(line, s);
        var blank := s.titles.nonWhitespace;
        EndByMemory(line, s, if blank.exhausted then |line| + 1 else blank.cached + 1);
        TitlesSoundLater(line, s.mask, next.mask, titles, Max(s.index + 1, end + 1), next.index);
      } else {
        TitlesSoundLater(line, s.mask, next.mask, s.titles, s.index, next.index);
      }
      SoundStays(line, next);
    }
  }

  /** Along the whole pass the quote finders are right wherever they can be asked next, and a
      non-whitespace character remembered at or ahead of the cursor is no parenthesis. */
  lemma MemoryStaysSound(line: Line, mask: Mask)
    requires |line| == |mask|
    ensures StaysSound(line, StartScan(mask))
  {
    StartCoupled(line, mask);
    SoundStays(line, StartScan(mask));
  }

  // ---------------------------------------------------------------- a guard readable from the line

  /** The destination at `i` goes on to a title tail and fails there, having looked at something
      behind the destination that may begin at `j`. */
  predicate LooksPast(line: Line, mask: Mask, i: nat, j: nat)
    requires |line| == |mask| && i < j < |line| - 1
  {
    && OpensDestination(line, mask, i) && line[j] == CLOSE_BRACKET && line[j + 1] == OPEN_PAREN
    && match Lead(line, mask, i + 2)
       case ToTitle(cursor) =>
         && NaiveTail(line, mask, cursor) == -1
         && j + 2 < ReadTo(line, mask, NextMatch(line, mask, NonWhitespace, cursor))
       case _ => false
  }

  predicate NoneLooksPast(line: Line, mask: Mask)
    requires |line| == |mask|
  {
    forall i: nat, j: nat :: i < j < |line| - 1 ==> !LooksPast(line, mask, i, j)
  }

  lemma LeadAgrees(line: Line, a: Mask, b: Mask, from: nat)
    requires |line| == |a| && from <= |line| && AgreeFrom(a, b, from)
    ensures Lead(line, a, from) == Lead(line, b, from)
  {
    ScanAgrees(line, a, b, from, 0);
    AngleScanIsNearest(line, a, from + 1);
    AngleScanIsNearest(line, b, from + 1);
    NextMatchAgrees(line, a, b, Only(ANGLE_CLOSE), from + 1);
    NextMatchAgrees(line, a, b, AngleOpenOrBreak, from + 1);
  }

  lemma ReadingAgrees(line: Line, a: Mask, b: Mask, cursor: nat)
    requires |line| == |a| && AgreeFrom(a, b, cursor)
    ensures var n := NextMatch(line, a, NonWhitespace, cursor);
      && NextMatch(line, b, NonWhitespace, cursor) == n
      && TailFrom(line, b, n) == TailFrom(line, a, n) && ReadTo(line, b, n) == ReadTo(line, a, n)
  {
    hide NextMatch;
    NextMatchAgrees(line, a, b, NonWhitespace, cursor);
    var n := NextMatch(line, a, NonWhitespace, cursor);
    if n != -1 && IsQuote(line[n]) {
      NextMatchAgrees(line, a, b, Only(line[n]), n + 1);
      var e := NextMatch(line, a, Only(line[n]), n + 1);
      if e != -1 {
        NextMatchAgrees(line, a, b, NonWhitespace, e + 1);
      }
    }
  }

  /** Nothing behind a destination that may still come has been looked at. */
  predicate NothingAhead(line: Line, index: nat, reach: nat) {
    forall j: nat :: index <= j < |line| - 1 && line[j] == CLOSE_BRACKET && line[j + 1] == OPEN_PAREN ==> reach <= j + 2
  }

  lemma GuardedStep(line: Line, mask: Mask, s: LinkScan, reach: nat)
    requires |line| == |mask| && NoneLooksPast(line, mask) && ScanFits(line, s) && s.index < |line|
    requires AgreeFrom(mask, s.mask, s.index) && reach <= |line| + 1 && NothingAhead(line, s.index, reach)
    ensures NotMisled(line, s, reach)
    ensures NothingAhead(line, NaiveStep(line, s).index, ReachAfter(line, s, reach))
    ensures AgreeFrom(mask, NaiveStep(line, s).mask, NaiveStep(line, s).index)
  {
    hide TailFrom, ReadTo, NextMatch, Lead, NoneLooksPast;
    match TitleCursor(line, s)
    case None =>
    case Some(cursor) =>
      LeadAgrees(line, mask, s.mask, s.index + 2);
      ReadingAgrees(line, mask, s.mask, cursor);
      assert FirstAnswer(line, s.mask, reach, cursor) == NextMatch(line, mask, NonWhitespace, cursor);
      var first := NextMatch(line, mask, NonWhitespace, cursor);
      AcceptedReach(line, s.mask, first);
      var next, later := NaiveStep(line, s).index, ReachAfter(line, s, reach);
      assert NaiveEnd(line, s) == TailFrom(line, s.mask, first) && later == ReadTo(line, mask, first);
      forall j: nat | next <= j < |line| - 1 && line[j] == CLOSE_BRACKET && line[j + 1] == OPEN_PAREN
        ensures later <= j + 2
      {
        NotPast(line, mask, s.index, j);
        assert OpensDestination(line, mask, s.index);
      }
  }

  lemma NotPast(line: Line, mask: Mask, i: nat, j: nat)
    requires |line| == |mask| && NoneLooksPast(line, mask) && i < j < |line| - 1
    ensures !LooksPast(line, mask, i, j)
  {
  }

  lemma AcceptedReach(line: Line, mask: Mask, n: int)
    requires |line| == |mask| && -1 <= n < |line|
    ensures TailFrom(line, mask, n) != -1 ==> ReadTo(line, mask, n) == TailFrom(line, mask, n) + 1
  {
  }

  lemma {:induction false} GuardedRun(line: Line, mask: Mask, s: LinkScan, reach: nat)
    requires |line| == |mask| && NoneLooksPast(line, mask) && ScanFits(line, s)
    requires AgreeFrom(mask, s.mask, s.index) && reach <= |line| + 1 && NothingAhead(line, s.index, reach)
    ensures NeverMisled(line, s, reach)
    decreases |line| - s.index
  {
    hide NotMisled, NothingAhead, ReachAfter, NaiveStep, NoneLooksPast;
    if s.index < |line| {
      GuardedStep(line, mask, s, reach);
      GuardedRun(line, mask, NaiveStep(line, s), ReachAfter(line, s, reach));
    }
  }

  /** On a line where no failed title tail looks past a later `](`, memory changes nothing. */
  lemma LinksNaiveWhenGuarded(line: Line, mask: Mask)
    requires |line| == |mask| && NoneLooksPast(line, mask)
    ensures Links(line, mask) == NaiveLinks(line, mask)
  {
    GuardedRun(line, mask, StartScan(mask), 0);
    LinksNaiveExactly(line, mask);
  }
}
