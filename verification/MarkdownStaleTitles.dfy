/** Lines on which the memory behind the title tail misleads the pass over links: it misses a
    link of the fresh reading, or recognises one that the fresh reading does not have. */
module MarkdownStaleTitles {
  import opened Basics
  import opened MarkdownBase
  import opened MarkdownDestination
  import opened MarkdownLinks
  import opened MarkdownTitles

  // ---------------------------------------------------------------- lines of two link texts

  predicate Plain(line: Line, from: nat, to: nat) {
    forall k :: from <= k < to && k < |line| ==> line[k] != OPEN_BRACKET && line[k] != CLOSE_BRACKET
  }

  lemma {:induction false} PlainIsSkipped(line: Line, s: LinkScan, to: nat)
    requires ScanFits(line, s) && s.index <= to <= |line| && Plain(line, s.index, to)
    ensures LinkRun(line, s) == LinkRun(line, s.(index := to))
    ensures NaiveRun(line, s) == NaiveRun(line, s.(index := to))
    decreases |line| - s.index
  {
    hide LinkEnd, NaiveEnd;
    if s.index < to {
      assert LinkStep(line, s) == s.(index := s.index + 1) == NaiveStep(line, s);
      PlainIsSkipped(line, s.(index := s.index + 1), to);
    }
  }

  /** A line of two link texts, the first at its very start, with nothing else in brackets. */
  predicate TwoTexts(line: Line, c1: nat, o2: nat, c2: nat) {
    && 0 < c1 < c1 + 1 < o2 < c2 < c2 + 1 < |line|
    && line[0] == OPEN_BRACKET && line[c1] == CLOSE_BRACKET && line[c1 + 1] == OPEN_PAREN
    && line[o2] == OPEN_BRACKET && line[c2] == CLOSE_BRACKET && line[c2 + 1] == OPEN_PAREN
    && line[o2 - 1] != BANG
    && Plain(line, 1, c1) && Plain(line, c1 + 1, o2) && Plain(line, o2 + 1, c2) && Plain(line, c2 + 1, |line|)
  }

  function LinkIfAny(open: nat, close: nat, end: int): seq<Link>
    requires end >= -1
  {
    if end == -1 then [] else [Link(open, false, close, end)]
  }

  /** The scan at the closing bracket of the first text, and then at that of the second. */
  function AtFirst(mask: Mask, c1: nat): LinkScan {
    LinkScan(c1, mask, [Opener(0, false)], [], FRESH_TITLES)
  }

  function AtSecond(mask: Mask, o2: nat, c2: nat, titles: TitleFinders): LinkScan {
    LinkScan(c2, mask, [Opener(o2, false)], [], titles)
  }

  lemma ReachFirst(line: Line, mask: Mask, c1: nat, o2: nat, c2: nat)
    requires TwoTexts(line, c1, o2, c2) && mask == seq(|line|, _ => Keep)
    ensures LinkRun(line, StartScan(mask)) == LinkRun(line, AtFirst(mask, c1))
    ensures NaiveRun(line, StartScan(mask)) == NaiveRun(line, AtFirst(mask, c1))
  {
    hide LinkEnd, NaiveEnd;
    var s := StartScan(mask);
    var pushed := AtFirst(mask, 1);
    assert LinkStep(line, s) == pushed == NaiveStep(line, s);
    PlainIsSkipped(line, pushed, c1);
  }

  lemma ReachSecond(line: Line, mask: Mask, c1: nat, o2: nat, c2: nat, titles: TitleFinders)
    requires TwoTexts(line, c1, o2, c2) && mask == seq(|line|, _ => Keep) && titles.Fits(|line|)
    ensures var s := LinkScan(c1 + 1, mask, [], [], titles);
      && LinkRun(line, s) == LinkRun(line, AtSecond(mask, o2, c2, titles))
      && NaiveRun(line, s) == NaiveRun(line, AtSecond(mask, o2, c2, titles))
  {
    hide LinkEnd, NaiveEnd, LinkRun, NaiveRun;
    var s := LinkScan(c1 + 1, mask, [], [], titles);
    PlainIsSkipped(line, s, o2);
    var there := s.(index := o2);
    var pushed := AtSecond(mask, o2, o2 + 1, titles);
    assert LinkStep(line, there) == pushed == NaiveStep(line, there);
    LinkRunUnfolds(line, there);
    NaiveRunUnfolds(line, there);
    PlainIsSkipped(line, pushed, c2);
  }

  lemma PassSecond(line: Line, mask: Mask, c1: nat, o2: nat, c2: nat, titles: TitleFinders, end: int,
                   titles': TitleFinders)
    requires TwoTexts(line, c1, o2, c2) && mask == seq(|line|, _ => Keep)
    requires titles.Fits(|line|) && titles'.Fits(|line|)
    requires end == -1 || c2 + 2 <= end < |line|
    ensures var s := TakeStep(line, AtSecond(mask, o2, c2, titles), end, titles');
      LinkRun(line, s).links == NaiveRun(line, s).links == LinkIfAny(o2, c2, end)
  {
    var s := TakeStep(line, AtSecond(mask, o2, c2, titles), end, titles');
    PlainIsSkipped(line, s, |line|);
  }

  lemma SecondEnds(line: Line, mask: Mask, c1: nat, o2: nat, c2: nat, titles: TitleFinders, u2: nat, reach: nat)
    requires TwoTexts(line, c1, o2, c2) && mask == seq(|line|, _ => Keep)
    requires Lead(line, mask, c2 + 2) == ToTitle(u2)
    requires Remembers(titles.nonWhitespace, reach, |line|) && TitlesSound(line, mask, titles, c1 + 1)
    ensures LinkEnd(line, AtSecond(mask, o2, c2, titles)).0
      == TailFrom(line, mask, FirstAnswer(line, mask, reach, u2))
    ensures NaiveEnd(line, AtSecond(mask, o2, c2, FRESH_TITLES)) == NaiveTail(line, mask, u2)
  {
    hide TailFrom, FirstAnswer, LinkEnd, Lead, NextMatch, Plain, NaiveTail, ReadTo;
    TitlesSoundLater(line, mask, mask, titles, c1 + 1, c2);
    hide TitlesSound;
    EndByMemory(line, AtSecond(mask, o2, c2, titles), reach);
  }

  lemma SecondRead(line: Line, mask: Mask, c1: nat, o2: nat, c2: nat, titles: TitleFinders, u2: nat, reach: nat)
    requires TwoTexts(line, c1, o2, c2) && mask == seq(|line|, _ => Keep)
    requires Lead(line, mask, c2 + 2) == ToTitle(u2)
    requires Remembers(titles.nonWhitespace, reach, |line|) && TitlesSound(line, mask, titles, c1 + 1)
    ensures LinkRun(line, AtSecond(mask, o2, c2, titles)).links
      == LinkIfAny(o2, c2, TailFrom(line, mask, FirstAnswer(line, mask, reach, u2)))
    ensures NaiveRun(line, AtSecond(mask, o2, c2, FRESH_TITLES)).links == LinkIfAny(o2, c2, NaiveTail(line, mask, u2))
  {
    assert titles.Fits(|line|);
    hide TailFrom, FirstAnswer, LinkEnd, NaiveEnd, NaiveTail, LinkRun, NaiveRun, Plain, TitlesSound, TakeStep;
    SecondEnds(line, mask, c1, o2, c2, titles, u2, reach);
    var second, unread := AtSecond(mask, o2, c2, titles), AtSecond(mask, o2, c2, FRESH_TITLES);
    LinkRunUnfolds(line, second);
    NaiveRunUnfolds(line, unread);
    PassSecond(line, mask, c1, o2, c2, titles, LinkEnd(line, second).0, LinkEnd(line, second).1);
    PassSecond(line, mask, c1, o2, c2, FRESH_TITLES, NaiveEnd(line, unread), FRESH_TITLES);
  }

  /** What the two passes make of such a line whose first destination fails in its title tail. */
  lemma TwoTextsRead(line: Line, mask: Mask, c1: nat, o2: nat, c2: nat, u1: nat, u2: nat)
    requires TwoTexts(line, c1, o2, c2) && mask == seq(|line|, _ => Keep)
    requires Lead(line, mask, c1 + 2) == ToTitle(u1) && Lead(line, mask, c2 + 2) == ToTitle(u2)
    requires NaiveTail(line, mask, u1) == -1
    ensures var reach := ReadTo(line, mask, NextMatch(line, mask, NonWhitespace, u1));
      Links(line, mask) == LinkIfAny(o2, c2, TailFrom(line, mask, FirstAnswer(line, mask, reach, u2)))
    ensures NaiveLinks(line, mask) == LinkIfAny(o2, c2, NaiveTail(line, mask, u2))
  {
    hide TailFrom, ReadTo, FirstAnswer, TitlesSound, LinkEnd, Lead, NextMatch, LinkRun, NaiveRun, Remembers, AtSecond;
    var reach := ReadTo(line, mask, NextMatch(line, mask, NonWhitespace, u1));
    ReachFirst(line, mask, c1, o2, c2);
    var first := AtFirst(mask, c1);
    FirstTextFails(line, mask, c1, u1);
    var titles := LinkEnd(line, first).1;
    var past := LinkScan(c1 + 1, mask, [], [], titles);
    LinkRunUnfolds(line, first);
    NaiveRunUnfolds(line, first);
    ReachSecond(line, mask, c1, o2, c2, titles);
    ReachSecond(line, mask, c1, o2, c2, FRESH_TITLES);
    SecondRead(line, mask, c1, o2, c2, titles, u2, reach);
  }

  lemma NaiveRunUnfolds(line: Line, s: LinkScan)
    requires ScanFits(line, s) && s.index < |line|
    ensures NaiveRun(line, s) == NaiveRun(line, NaiveStep(line, s))
  {
  }

  lemma FirstTextFails(line: Line, mask: Mask, c1: nat, u1: nat)
    requires |line| == |mask| && 0 < c1 < c1 + 1 < |line| && mask[c1] == Keep == mask[c1 + 1]
    requires line[c1] == CLOSE_BRACKET && line[c1 + 1] == OPEN_PAREN
    requires Lead(line, mask, c1 + 2) == ToTitle(u1) && NaiveTail(line, mask, u1) == -1
    ensures var first := AtFirst(mask, c1);
      var (end, titles) := LinkEnd(line, first);
      && end == -1 == NaiveEnd(line, first)
      && Remembers(titles.nonWhitespace, ReadTo(line, mask, NextMatch(line, mask, NonWhitespace, u1)), |line|)
      && TitlesSound(line, mask, titles, c1 + 1)
  {
    var first := AtFirst(mask, c1);
    StartCoupled(line, mask);
    TitlesSoundLater(line, mask, mask, FRESH_TITLES, 0, c1);
    EndByMemory(line, first, 0);
    assert FirstAnswer(line, mask, 0, u1) == NextMatch(line, mask, NonWhitespace, u1);
    hide TailFrom, ReadTo, Lead, LinkEnd, TitlesSound, NextMatch;
  }

  function Units(s: string): Line
    requires forall i :: 0 <= i < |s| ==> s[i] < '\U{10000}'
  {
    seq(|s|, i requires 0 <= i < |s| => s[i] as int)
  }

  function AllKept(line: Line): Mask {
    seq(|line|, _ => Keep)
  }

  predicate Answers(line: Line, mask: Mask, cls: CharClass, from: nat, at: nat)
    requires |line| == |mask|
  {
    from <= at < |line| && Hit(line, mask, cls, at) && forall k :: from <= k < at ==> !Hit(line, mask, cls, k)
  }

  lemma AnswersNext(line: Line, mask: Mask, cls: CharClass, from: nat, at: nat)
    requires |line| == |mask| && Answers(line, mask, cls, from, at)
    ensures NextMatch(line, mask, cls, from) == at
  {
  }

  const HIDDEN := Units("[a](b \"c [e](f )\" x)")
  const INVENTED := Units("[a](b \"c [e](f g) \" \"h\" )")
  const UNTITLED := Units("[a](<b [c](d )> x")

  /** The scans of the two destinations, and where the first tail fails. */
  lemma HiddenLeads()
    ensures TwoTexts(HIDDEN, 2, 9, 11)
    ensures Lead(HIDDEN, AllKept(HIDDEN), 4) == ToTitle(5)
    ensures Lead(HIDDEN, AllKept(HIDDEN), 13) == ToTitle(14)
  {
  }

  lemma InventedLeads()
    ensures TwoTexts(INVENTED, 2, 9, 11)
    ensures Lead(INVENTED, AllKept(INVENTED), 4) == ToTitle(5)
    ensures Lead(INVENTED, AllKept(INVENTED), 13) == ToTitle(14)
  {
  }

  lemma UntitledShape()
    ensures TwoTexts(UNTITLED, 2, 7, 9)
  {
  }

  lemma UntitledLeads()
    ensures Lead(UNTITLED, AllKept(UNTITLED), 4) == ToTitle(15)
    ensures Lead(UNTITLED, AllKept(UNTITLED), 11) == ToTitle(12)
  {
    hide DepthScan;
    UntitledBare();
    AnswersNext(UNTITLED, AllKept(UNTITLED), Only(ANGLE_CLOSE), 5, 14);
    AngleScanIsNearest(UNTITLED, AllKept(UNTITLED), 5);
    hide AngleScan;
  }

  lemma UntitledBare()
    ensures DepthScan(UNTITLED, AllKept(UNTITLED), 11, 0) == ToTitle(12)
  {
  }

  /** A quoted title closed at `e` and followed by another character is rejected after a look at
      that character. */
  lemma TitleThenText(line: Line, mask: Mask, u: nat, t: nat, e: nat, c: nat)
    requires |line| == |mask| && t < e < c < |line|
    requires Answers(line, mask, NonWhitespace, u, t) && IsQuote(line[t])
    requires Answers(line, mask, Only(line[t]), t + 1, e) && Answers(line, mask, NonWhitespace, e + 1, c)
    ensures NextMatch(line, mask, NonWhitespace, u) == t && ReadTo(line, mask, t) == c + 1
    ensures TailFrom(line, mask, t) == if line[c] == CLOSE_PAREN then c else -1
  {
    AnswersNext(line, mask, NonWhitespace, u, t);
    AnswersNext(line, mask, Only(line[t]), t + 1, e);
    AnswersNext(line, mask, NonWhitespace, e + 1, c);
  }

  lemma NoTitle(line: Line, mask: Mask, u: nat, t: nat)
    requires |line| == |mask| && Answers(line, mask, NonWhitespace, u, t) && !IsQuote(line[t])
    ensures NextMatch(line, mask, NonWhitespace, u) == t && ReadTo(line, mask, t) == t + 1
    ensures TailFrom(line, mask, t) == if line[t] == CLOSE_PAREN then t else -1
  {
    AnswersNext(line, mask, NonWhitespace, u, t);
  }

  /** After the destination of `a` has failed behind its title, `[e](f )` in that title is no
      longer seen as a link. */
  lemma StaleTitleHidesLink()
    ensures Links(HIDDEN, AllKept(HIDDEN)) == []
    ensures NaiveLinks(HIDDEN, AllKept(HIDDEN)) == [Link(9, false, 11, 15)]
  {
    hide Lead, NextMatch, ReadTo, TailFrom, Links, NaiveLinks, TwoTexts;
    var line, mask := HIDDEN, AllKept(HIDDEN);
    HiddenLeads();
    TitleThenText(line, mask, 5, 6, 16, 18);
    NoTitle(line, mask, 18, 18);
    NoTitle(line, mask, 14, 15);
    TwoTextsRead(line, mask, 2, 9, 11, 5, 14);
  }

  /** The other direction: `[e](f g)` in such a title is taken for a link that runs to the last
      parenthesis of the line. */
  lemma StaleTitleInventsLink()
    ensures Links(INVENTED, AllKept(INVENTED)) == [Link(9, false, 11, 24)]
    ensures NaiveLinks(INVENTED, AllKept(INVENTED)) == []
  {
    hide Lead, NextMatch, ReadTo, TailFrom, Links, NaiveLinks, TwoTexts;
    var line, mask := INVENTED, AllKept(INVENTED);
    InventedLeads();
    TitleThenText(line, mask, 5, 6, 18, 20);
    TitleThenText(line, mask, 20, 20, 22, 24);
    NoTitle(line, mask, 14, 15);
    TwoTextsRead(line, mask, 2, 9, 11, 5, 14);
  }

  /** No title is needed: behind an angle-bracketed destination that fails, `[c](d )` inside the
      angle brackets is not seen either. */
  lemma StaleAngleHidesLink()
    ensures Links(UNTITLED, AllKept(UNTITLED)) == []
    ensures NaiveLinks(UNTITLED, AllKept(UNTITLED)) == [Link(7, false, 9, 13)]
  {
    hide Lead, NextMatch, ReadTo, TailFrom, Links, NaiveLinks, TwoTexts;
    var line, mask := UNTITLED, AllKept(UNTITLED);
    UntitledShape();
    UntitledLeads();
    NoTitle(line, mask, 15, 16);
    NoTitle(line, mask, 12, 13);
    TwoTextsRead(line, mask, 2, 7, 9, 15, 12);
  }
}
