/** Marking HTML comments, autolinks and tags in one pass. The pass remembers the last `>` it
    found and that no comment closes any more; the specification searches afresh every time. */
module MarkdownHtml {
  import opened MarkdownBase

  const SLASH: CodeUnit := 0x2F
  const HYPHEN: CodeUnit := 0x2D
  const COLON: CodeUnit := 0x3A
  const AT_SIGN: CodeUnit := 0x40
  const EQUALS: CodeUnit := 0x3D
  const UNDERSCORE: CodeUnit := 0x5F
  const DOT: CodeUnit := 0x2E
  const PLUS: CodeUnit := 0x2B

  const COMMENT_OPEN: Line := [ANGLE_OPEN, BANG, HYPHEN, HYPHEN]
  const COMMENT_CLOSE: Line := [HYPHEN, HYPHEN, ANGLE_CLOSE]

  // ---------------------------------------------------------------- searching for a text

  predicate StartsAt(line: Line, needle: Line, at: nat) {
    at + |needle| <= |line| && line[at..at + |needle|] == needle
  }

  predicate NeedleHit(line: Line, mask: Mask, needle: Line, at: nat)
    requires |line| == |mask|
  {
    StartsAt(line, needle, at) && at < |line| && mask[at] == Keep
  }

  /** The first occurrence at or after `from` whose first character is kept, or -1. */
  function NextNeedle(line: Line, mask: Mask, needle: Line, from: nat): (r: int)
    requires |line| == |mask|
    ensures r == -1 || (from <= r < |line| && NeedleHit(line, mask, needle, r))
    ensures forall k :: from <= k < |line| && (r == -1 || k < r) ==> !NeedleHit(line, mask, needle, k)
    decreases |line| - from
  {
    if from >= |line| then -1
    else if NeedleHit(line, mask, needle, from) then from
    else NextNeedle(line, mask, needle, from + 1)
  }

  lemma NeedleUnique(line: Line, mask: Mask, needle: Line, from: nat, at: int)
    requires |line| == |mask|
    requires at == -1 || (from <= at < |line| && NeedleHit(line, mask, needle, at))
    requires forall k :: from <= k < |line| && (at == -1 || k < at) ==> !NeedleHit(line, mask, needle, k)
    ensures NextNeedle(line, mask, needle, from) == at
  {
    hide NeedleHit;
    var r := NextNeedle(line, mask, needle, from);
  }

  method IndexOf(line: Line, needle: Line, from: nat) returns (r: int)
    ensures r == -1 || (from <= r < |line| && StartsAt(line, needle, r))
    ensures forall k :: from <= k < |line| && (r == -1 || k < r) ==> !StartsAt(line, needle, k)
  {
    r := from;
    while r < |line| && !StartsAt(line, needle, r)
      invariant from <= r
      invariant forall k :: from <= k < r && k < |line| ==> !StartsAt(line, needle, k)
    {
      r := r + 1;
    }
    if r >= |line| {
      r := -1;
    }
  }

  /** Skipping over masked stretches finds what looking at every position finds. */
  method IndexOfUnmasked(line: Line, mask: array<Flag>, needle: Line, from: nat) returns (r: int)
    requires mask.Length == |line|
    ensures r == NextNeedle(line, mask[..], needle, from)
  {
    var cursor := from;
    while cursor < |line|
      invariant from <= cursor
      invariant forall k :: from <= k < cursor && k < |line| ==> !NeedleHit(line, mask[..], needle, k)
    {
      var found := IndexOf(line, needle, cursor);
      if found == -1 {
        NeedleUnique(line, mask[..], needle, from, -1);
        return -1;
      }
      if mask[found] == Keep {
        NeedleUnique(line, mask[..], needle, from, found);
        return found;
      }
      cursor := found + 1;
      while cursor < |line| && mask[cursor] != Keep
        invariant found < cursor <= |line|
        invariant forall k :: found <= k < cursor ==> mask[k] != Keep
      {
        cursor := cursor + 1;
      }
    }
    NeedleUnique(line, mask[..], needle, from, -1);
    return -1;
  }

  // ---------------------------------------------------------------- autolinks and tags

  predicate IsAsciiLetter(u: CodeUnit) {
    65 <= u <= 90 || 97 <= u <= 122
  }

  predicate IsAsciiAlphanumeric(u: CodeUnit) {
    IsAsciiLetter(u) || 48 <= u <= 57
  }

  function FirstOf(s: Line, u: CodeUnit, from: nat): (r: int)
    ensures r == -1 || from <= r < |s|
    decreases |s| - from
  {
    if from >= |s| then -1 else if s[from] == u then from else FirstOf(s, u, from + 1)
  }

  predicate IsSchemeChar(u: CodeUnit) {
    IsAsciiAlphanumeric(u) || u == PLUS || u == DOT || u == HYPHEN
  }

  /** A scheme of at least two characters before the first colon, or a mail address without one. */
  predicate IsAutolink(inner: Line) {
    var colon, at := FirstOf(inner, COLON, 0), FirstOf(inner, AT_SIGN, 0);
    && |inner| > 0
    && (forall k :: 0 <= k < |inner| ==> inner[k] != ANGLE_OPEN && !IsWhitespace(inner[k]))
    && if colon >= 2 then
         IsAsciiLetter(inner[0]) && forall k :: 0 <= k < colon ==> IsSchemeChar(inner[k])
       else
         0 < at < |inner| - 1 && colon == -1
  }

  /** The characters that the loops of the tag scanner skip. */
  datatype Run = Blank | TagName | AttributeName | Unquoted | Until(quote: CodeUnit) {
    predicate Has(u: CodeUnit) {
      match this
      case Blank => IsWhitespace(u)
      case TagName => IsAsciiAlphanumeric(u) || u == HYPHEN
      case AttributeName => IsAsciiAlphanumeric(u) || u == UNDERSCORE || u == DOT || u == COLON || u == HYPHEN
      case Unquoted =>
        !IsWhitespace(u) && u != DOUBLE_QUOTE && u != SINGLE_QUOTE && u != EQUALS && u != ANGLE_OPEN && u != ANGLE_CLOSE
        && u != BACKTICK
      case Until(quote) => u != quote
    }
  }

  predicate Kept(mask: Mask, i: nat) {
    i < |mask| && mask[i] == Keep
  }

  /** Past the kept characters of the run. */
  function Skip(line: Line, mask: Mask, run: Run, i: nat): (r: nat)
    requires |line| == |mask|
    ensures i <= r && (r > i ==> r <= |line|)
    ensures forall k :: i <= k < r ==> Kept(mask, k)
    decreases |line| - i
  {
    if Kept(mask, i) && run.Has(line[i]) then Skip(line, mask, run, i + 1) else i
  }

  method SkipRun(line: Line, mask: array<Flag>, run: Run, i: nat) returns (r: nat)
    requires |line| == mask.Length
    ensures r == Skip(line, mask[..], run, i)
  {
    r := i;
    while r < |line| && mask[r] == Keep && run.Has(line[r])
      invariant i <= r && (r > i ==> r <= |line|)
      invariant Skip(line, mask[..], run, i) == Skip(line, mask[..], run, r)
    {
      r := r + 1;
    }
  }

  predicate Reads(line: Line, mask: Mask, i: nat, u: CodeUnit)
    requires |line| == |mask|
  {
    Kept(mask, i) && line[i] == u
  }

  /** Past an attribute value, or -1. */
  function ValueEnd(line: Line, mask: Mask, i: nat): (r: int)
    requires |line| == |mask|
    ensures r == -1 || (i < r <= |line| && forall k :: i <= k < r ==> Kept(mask, k))
  {
    if Reads(line, mask, i, DOUBLE_QUOTE) || Reads(line, mask, i, SINGLE_QUOTE) then
      var close := Skip(line, mask, Until(line[i]), i + 1);
      if Kept(mask, close) then close + 1 else -1
    else
      var end := Skip(line, mask, Unquoted, i);
      if end == i then -1 else end
  }

  /** Past the attribute whose name starts at `at`, or -1. */
  function AttributeEnd(line: Line, mask: Mask, at: nat): (r: int)
    requires at < |line| == |mask| && Kept(mask, at)
    ensures r == -1 || (at < r <= |line| && forall k :: at <= k < r ==> Kept(mask, k))
  {
    var name := Skip(line, mask, AttributeName, at + 1);
    var equals := Skip(line, mask, Blank, name);
    if !Reads(line, mask, equals, EQUALS) then name
    else ValueEnd(line, mask, Skip(line, mask, Blank, equals + 1))
  }

  /** The `>` that ends the tag whose attributes start at `i`, or -1. */
  function AttributesEnd(line: Line, mask: Mask, i: nat): (r: int)
    requires |line| == |mask|
    ensures r == -1 || (i <= r < |line| && line[r] == ANGLE_CLOSE && forall k :: i <= k <= r ==> Kept(mask, k))
    decreases |line| - i
  {
    var at := Skip(line, mask, Blank, i);
    if Reads(line, mask, at, ANGLE_CLOSE) then at
    else if Reads(line, mask, at, SLASH) then if Reads(line, mask, at + 1, ANGLE_CLOSE) then at + 1 else -1
    else if at == i || !Kept(mask, at) then -1
    else if !IsAsciiLetter(line[at]) && line[at] != UNDERSCORE && line[at] != COLON then -1
    else
      var next := AttributeEnd(line, mask, at);
      if next == -1 then -1 else AttributesEnd(line, mask, next)
  }

  /** Where the tag that opened just before `from` ends, or -1: a `>` reached through kept
      characters only. */
  function TagEnd(line: Line, mask: Mask, from: nat): (r: int)
    requires |line| == |mask|
    ensures r == -1 || (from < r < |line| && line[r] == ANGLE_CLOSE)
    ensures r != -1 ==> forall k :: from < k <= r ==> Kept(mask, k)
  {
    var closing := from < |line| && line[from] == SLASH;
    var start := if closing then from + 1 else from;
    if !Kept(mask, start) || !IsAsciiLetter(line[start]) then -1
    else
      var name := Skip(line, mask, TagName, start);
      if closing then
        var end := Skip(line, mask, Blank, name);
        if Reads(line, mask, end, ANGLE_CLOSE) then end else -1
      else AttributesEnd(line, mask, name)
  }

  // ---------------------------------------------------------------- which texts are tags

  /** Kept characters of the run from `i` up to `k`. */
  predicate AllOf(line: Line, mask: Mask, run: Run, i: nat, k: nat)
    requires |line| == |mask|
  {
    i <= k <= |line| && forall j :: i <= j < k ==> Kept(mask, j) && run.Has(line[j])
  }

  predicate IsAttributeStart(u: CodeUnit) {
    IsAsciiLetter(u) || u == UNDERSCORE || u == COLON
  }

  /** A quoted text without its quote inside, or a nonempty run of unquoted characters. */
  predicate ValueShape(line: Line, mask: Mask, v: nat, b: nat)
    requires |line| == |mask|
  {
    || (v + 2 <= b <= |line| && Kept(mask, v) && IsQuote(line[v]) && AllOf(line, mask, Until(line[v]), v + 1, b - 1)
        && Reads(line, mask, b - 1, line[v]))
    || (v < b && AllOf(line, mask, Unquoted, v, b))
  }

  /** An equals sign with blanks around it, and a value. */
  predicate AssignmentShape(line: Line, mask: Mask, n: nat, b: nat)
    requires |line| == |mask|
  {
    exists q, v :: n <= q < v <= b && AssignmentAt(line, mask, n, q, v, b)
  }

  predicate AssignmentAt(line: Line, mask: Mask, n: nat, q: nat, v: nat, b: nat)
    requires |line| == |mask|
  {
    && AllOf(line, mask, Blank, n, q) && Reads(line, mask, q, EQUALS)
    && AllOf(line, mask, Blank, q + 1, v) && ValueShape(line, mask, v, b)
  }

  /** Blanks, a name, and perhaps a value, from `i` up to `b`. */
  predicate AttributeAt(line: Line, mask: Mask, i: nat, a: nat, n: nat, b: nat)
    requires |line| == |mask|
  {
    && i < a < n <= b <= |line|
    && AllOf(line, mask, Blank, i, a) && Kept(mask, a) && IsAttributeStart(line[a])
    && AllOf(line, mask, AttributeName, a + 1, n)
    && (b == n || AssignmentShape(line, mask, n, b))
  }

  /** Blanks and `>` or `/>`, ending at `r`. */
  predicate CloseShape(line: Line, mask: Mask, i: nat, r: nat)
    requires |line| == |mask|
  {
    || (AllOf(line, mask, Blank, i, r) && Reads(line, mask, r, ANGLE_CLOSE))
    || (i < r && AllOf(line, mask, Blank, i, r - 1)
        && Reads(line, mask, r - 1, SLASH) && Reads(line, mask, r, ANGLE_CLOSE))
  }

  /** Any number of attributes, each after a blank, and the close. */
  predicate AttributesShape(line: Line, mask: Mask, i: nat, r: nat)
    requires |line| == |mask|
    decreases r - i
  {
    || CloseShape(line, mask, i, r)
    || exists a, n, b :: i < a < n <= b <= r && AttributeAt(line, mask, i, a, n, b) && AttributesShape(line, mask, b, r)
  }

  /** A closing tag `/name >`, or a name with attributes. */
  predicate TagShape(line: Line, mask: Mask, from: nat, r: nat)
    requires |line| == |mask|
  {
    if from < |line| && line[from] == SLASH then
      exists n :: from + 1 < n <= r && NameShape(line, mask, from + 1, n)
        && AllOf(line, mask, Blank, n, r) && Reads(line, mask, r, ANGLE_CLOSE)
    else
      exists n :: from < n <= r && NameShape(line, mask, from, n) && AttributesShape(line, mask, n, r)
  }

  predicate NameShape(line: Line, mask: Mask, i: nat, n: nat)
    requires |line| == |mask|
  {
    Kept(mask, i) && IsAsciiLetter(line[i]) && i < n && AllOf(line, mask, TagName, i + 1, n)
  }

  lemma {:induction false} SkipEnds(line: Line, mask: Mask, run: Run, i: nat, k: nat)
    requires |line| == |mask| && AllOf(line, mask, run, i, k)
    requires !Kept(mask, k) || !run.Has(line[k])
    ensures Skip(line, mask, run, i) == k
    decreases k - i
  {
    if i < k {
      SkipEnds(line, mask, run, i + 1, k);
    }
  }

  lemma {:induction false} SkipIsAllOf(line: Line, mask: Mask, run: Run, i: nat)
    requires |line| == |mask| && i <= |line|
    ensures var k := Skip(line, mask, run, i); AllOf(line, mask, run, i, k) && (!Kept(mask, k) || !run.Has(line[k]))
    decreases |line| - i
  {
    if Kept(mask, i) && run.Has(line[i]) {
      SkipIsAllOf(line, mask, run, i + 1);
    }
  }

  lemma ValueEndIsShape(line: Line, mask: Mask, v: nat)
    requires |line| == |mask| && v <= |line| && ValueEnd(line, mask, v) != -1
    ensures ValueShape(line, mask, v, ValueEnd(line, mask, v))
  {
    if v < |line| {
      SkipIsAllOf(line, mask, Unquoted, v);
      SkipIsAllOf(line, mask, Until(line[v]), v + 1);
    }
  }

  lemma {:induction false} EndIsShape(line: Line, mask: Mask, i: nat)
    requires |line| == |mask| && i <= |line| && AttributesEnd(line, mask, i) != -1
    ensures AttributesShape(line, mask, i, AttributesEnd(line, mask, i))
    decreases |line| - i
  {
    hide Skip, ValueEnd, AllOf;
    var r := AttributesEnd(line, mask, i);
    SkipIsAllOf(line, mask, Blank, i);
    var a := Skip(line, mask, Blank, i);
    if Reads(line, mask, a, ANGLE_CLOSE) {
    } else if Reads(line, mask, a, SLASH) {
    } else {
      var n := Skip(line, mask, AttributeName, a + 1);
      SkipIsAllOf(line, mask, AttributeName, a + 1);
      var q := Skip(line, mask, Blank, n);
      SkipIsAllOf(line, mask, Blank, n);
      if !Reads(line, mask, q, EQUALS) {
        EndIsShape(line, mask, n);
        assert AttributeAt(line, mask, i, a, n, n);
      } else {
        var v := Skip(line, mask, Blank, q + 1);
        SkipIsAllOf(line, mask, Blank, q + 1);
        var b := ValueEnd(line, mask, v);
        ValueEndIsShape(line, mask, v);
        EndIsShape(line, mask, b);
        assert AssignmentAt(line, mask, n, q, v, b);
        assert AttributeAt(line, mask, i, a, n, b);
      }
    }
  }

  /** What can stand right behind a name or a value: a blank, `>`, or `/>`. */
  lemma ShapeStarts(line: Line, mask: Mask, i: nat, r: nat)
    requires |line| == |mask| && i <= r && AttributesShape(line, mask, i, r)
    ensures Kept(mask, i)
      && (IsWhitespace(line[i]) || line[i] == ANGLE_CLOSE
          || (line[i] == SLASH && r == i + 1 && Reads(line, mask, r, ANGLE_CLOSE)))
  {
    if !CloseShape(line, mask, i, r) {
      var a, n, b :| i < a < n <= b <= r && AttributeAt(line, mask, i, a, n, b) && AttributesShape(line, mask, b, r);
      assert AllOf(line, mask, Blank, i, a);
    }
  }

  lemma CloseIsEnd(line: Line, mask: Mask, i: nat, r: nat)
    requires |line| == |mask| && i <= r && CloseShape(line, mask, i, r)
    ensures AttributesEnd(line, mask, i) == r
  {
    var k := if AllOf(line, mask, Blank, i, r) && Reads(line, mask, r, ANGLE_CLOSE) then r else r - 1;
    SkipEnds(line, mask, Blank, i, k);
    hide Skip;
  }

  /** A value is read to its end, or over the slash of a `/>` right behind it. */
  lemma ValueShapeRead(line: Line, mask: Mask, v: nat, b: nat, r: nat)
    requires |line| == |mask| && b <= r && ValueShape(line, mask, v, b) && AttributesShape(line, mask, b, r)
    ensures ValueEnd(line, mask, v) == b || (ValueEnd(line, mask, v) == r && CloseShape(line, mask, r, r))
    ensures Kept(mask, v) && !IsWhitespace(line[v])
  {
    ShapeStarts(line, mask, b, r);
    hide AttributesShape, Skip;
    if v < b && AllOf(line, mask, Unquoted, v, b) {
      if line[b] == SLASH {
        assert AllOf(line, mask, Unquoted, v, b + 1);
        SkipEnds(line, mask, Unquoted, v, b + 1);
      } else {
        SkipEnds(line, mask, Unquoted, v, b);
      }
    } else {
      SkipEnds(line, mask, Until(line[v]), v + 1, b - 1);
    }
  }

  lemma NameEnds(line: Line, mask: Mask, i: nat, n: nat)
    requires |line| == |mask| && n < |line| && Kept(mask, n) && AllOf(line, mask, AttributeName, i, n)
    requires IsWhitespace(line[n]) || line[n] == ANGLE_CLOSE || line[n] == SLASH || line[n] == EQUALS
    ensures Skip(line, mask, AttributeName, i) == n
  {
    SkipEnds(line, mask, AttributeName, i, n);
  }

  /** Behind an attribute without a value no equals sign follows. */
  lemma NoAssignment(line: Line, mask: Mask, n: nat, r: nat)
    requires |line| == |mask| && n <= r && AttributesShape(line, mask, n, r)
    ensures Kept(mask, n) && (IsWhitespace(line[n]) || line[n] == ANGLE_CLOSE || line[n] == SLASH)
    ensures !Reads(line, mask, Skip(line, mask, Blank, n), EQUALS)
  {
    ShapeStarts(line, mask, n, r);
    if CloseShape(line, mask, n, r) {
      var k := if AllOf(line, mask, Blank, n, r) && Reads(line, mask, r, ANGLE_CLOSE) then r else r - 1;
      SkipEnds(line, mask, Blank, n, k);
    } else {
      var a, m, b :| n < a < m <= b <= r && AttributeAt(line, mask, n, a, m, b) && AttributesShape(line, mask, b, r);
      SkipEnds(line, mask, Blank, n, a);
    }
  }

  lemma AssignmentRead(line: Line, mask: Mask, n: nat, q: nat, v: nat, b: nat, r: nat)
    requires |line| == |mask| && n <= q < v <= b <= r
    requires AssignmentAt(line, mask, n, q, v, b) && AttributesShape(line, mask, b, r)
    ensures Kept(mask, n) && (IsWhitespace(line[n]) || line[n] == EQUALS)
    ensures Skip(line, mask, Blank, n) == q && Reads(line, mask, q, EQUALS) && Skip(line, mask, Blank, q + 1) == v
    ensures ValueEnd(line, mask, v) == b || (ValueEnd(line, mask, v) == r && CloseShape(line, mask, r, r))
  {
    ValueShapeRead(line, mask, v, b, r);
    hide AttributesShape, ValueShape, ValueEnd;
    SkipEnds(line, mask, Blank, n, q);
    SkipEnds(line, mask, Blank, q + 1, v);
  }

  /** One attribute is passed, and what the end is then depends on the rest alone. */
  lemma AttributePassed(line: Line, mask: Mask, i: nat, a: nat, n: nat, b: nat, r: nat)
    requires |line| == |mask| && b <= r
    requires AttributeAt(line, mask, i, a, n, b) && AttributesShape(line, mask, b, r)
    ensures AttributesEnd(line, mask, i) == AttributesEnd(line, mask, b)
      || (CloseShape(line, mask, r, r) && AttributesEnd(line, mask, i) == AttributesEnd(line, mask, r))
  {
    hide Skip, ValueEnd, AttributesShape, CloseShape, AllOf, ValueShape, AssignmentAt;
    SkipEnds(line, mask, Blank, i, a);
    if b == n {
      NoAssignment(line, mask, n, r);
      NameEnds(line, mask, a + 1, n);
    } else {
      var q, v :| n <= q < v <= b && AssignmentAt(line, mask, n, q, v, b);
      AssignmentRead(line, mask, n, q, v, b, r);
      NameEnds(line, mask, a + 1, n);
    }
  }

  lemma {:induction false} ShapeIsEnd(line: Line, mask: Mask, i: nat, r: nat)
    requires |line| == |mask| && i <= r && AttributesShape(line, mask, i, r)
    ensures AttributesEnd(line, mask, i) == r
    decreases r - i
  {
    hide AttributesEnd, AttributeAt, CloseShape;
    if CloseShape(line, mask, i, r) {
      CloseIsEnd(line, mask, i, r);
    } else {
      var a, n, b :| i < a < n <= b <= r && AttributeAt(line, mask, i, a, n, b) && AttributesShape(line, mask, b, r);
      AttributePassed(line, mask, i, a, n, b, r);
      ShapeIsEnd(line, mask, b, r);
      if CloseShape(line, mask, r, r) {
        CloseIsEnd(line, mask, r, r);
      }
    }
  }

  /** A name is read to its end when a blank, `>` or `/` stands behind it. */
  lemma TagNameEnds(line: Line, mask: Mask, i: nat, n: nat)
    requires |line| == |mask| && NameShape(line, mask, i, n) && Kept(mask, n)
    requires IsWhitespace(line[n]) || line[n] == ANGLE_CLOSE || line[n] == SLASH
    ensures Skip(line, mask, TagName, i) == n
  {
    assert AllOf(line, mask, TagName, i, n);
    SkipEnds(line, mask, TagName, i, n);
  }

  lemma NameRead(line: Line, mask: Mask, i: nat)
    requires |line| == |mask| && Kept(mask, i) && IsAsciiLetter(line[i])
    ensures NameShape(line, mask, i, Skip(line, mask, TagName, i))
  {
    SkipIsAllOf(line, mask, TagName, i);
  }

  lemma ClosingTag(line: Line, mask: Mask, from: nat, r: nat)
    requires |line| == |mask| && from < |line| && line[from] == SLASH
    ensures TagEnd(line, mask, from) == r <==> TagShape(line, mask, from, r)
  {
    hide Skip, AllOf;
    if TagEnd(line, mask, from) == r {
      NameRead(line, mask, from + 1);
      SkipIsAllOf(line, mask, Blank, Skip(line, mask, TagName, from + 1));
    }
    if TagShape(line, mask, from, r) {
      var n :| from + 1 < n <= r && NameShape(line, mask, from + 1, n)
        && AllOf(line, mask, Blank, n, r) && Reads(line, mask, r, ANGLE_CLOSE);
      BlanksStart(line, mask, n, r);
      TagNameEnds(line, mask, from + 1, n);
      SkipEnds(line, mask, Blank, n, r);
    }
  }

  lemma BlanksStart(line: Line, mask: Mask, n: nat, r: nat)
    requires |line| == |mask| && AllOf(line, mask, Blank, n, r) && Reads(line, mask, r, ANGLE_CLOSE)
    ensures Kept(mask, n) && (IsWhitespace(line[n]) || line[n] == ANGLE_CLOSE)
  {
  }

  lemma OpeningTag(line: Line, mask: Mask, from: nat, r: nat)
    requires |line| == |mask| && !(from < |line| && line[from] == SLASH)
    ensures TagEnd(line, mask, from) == r <==> TagShape(line, mask, from, r)
  {
    hide Skip, AllOf, AttributesEnd, AttributesShape;
    if TagEnd(line, mask, from) == r {
      NameRead(line, mask, from);
      EndIsShape(line, mask, Skip(line, mask, TagName, from));
    }
    if TagShape(line, mask, from, r) {
      var n :| from < n <= r && NameShape(line, mask, from, n) && AttributesShape(line, mask, n, r);
      ShapeStarts(line, mask, n, r);
      TagNameEnds(line, mask, from, n);
      ShapeIsEnd(line, mask, n, r);
    }
  }

  /** The scanner accepts exactly the tags, and ends each where it ends. */
  lemma TagEndExactly(line: Line, mask: Mask, from: nat, r: nat)
    requires |line| == |mask|
    ensures TagEnd(line, mask, from) == r <==> TagShape(line, mask, from, r)
  {
    if from < |line| && line[from] == SLASH {
      ClosingTag(line, mask, from, r);
    } else {
      OpeningTag(line, mask, from, r);
    }
  }

  method Looks(line: Line, mask: array<Flag>, i: nat, u: CodeUnit) returns (b: bool)
    requires |line| == mask.Length
    ensures b == Reads(line, mask[..], i, u)
  {
    b := i < |line| && mask[i] == Keep && line[i] == u;
  }

  method AttributeValueEnd(line: Line, mask: array<Flag>, i: nat) returns (r: int)
    requires |line| == mask.Length
    ensures r == ValueEnd(line, mask[..], i)
  {
    hide Skip;
    if i < |line| && mask[i] == Keep && (line[i] == DOUBLE_QUOTE || line[i] == SINGLE_QUOTE) {
      var close := SkipRun(line, mask, Until(line[i]), i + 1);
      return if close < |line| && mask[close] == Keep then close + 1 else -1;
    }
    var end := SkipRun(line, mask, Unquoted, i);
    return if end == i then -1 else end;
  }

  method ScanAttributes(line: Line, mask: array<Flag>, from: nat) returns (r: int)
    requires |line| == mask.Length && from <= |line|
    ensures r == AttributesEnd(line, mask[..], from)
  {
    hide Skip, Reads, ValueEnd;
    var index := from;
    while true
      invariant index <= |line|
      invariant AttributesEnd(line, mask[..], from) == AttributesEnd(line, mask[..], index)
      decreases |line| - index
    {
      var at := SkipRun(line, mask, Blank, index);
      var ends := Looks(line, mask, at, ANGLE_CLOSE);
      if ends {
        return at;
      }
      var empty := Looks(line, mask, at, SLASH);
      if empty {
        ends := Looks(line, mask, at + 1, ANGLE_CLOSE);
        return if ends then at + 1 else -1;
      }
      if at == index || at >= |line| || mask[at] != Keep {
        return -1;
      }
      if !IsAsciiLetter(line[at]) && line[at] != UNDERSCORE && line[at] != COLON {
        return -1;
      }
      var name := SkipRun(line, mask, AttributeName, at + 1);
      var equals := SkipRun(line, mask, Blank, name);
      var valued := Looks(line, mask, equals, EQUALS);
      if !valued {
        index := name;
        continue;
      }
      var start := SkipRun(line, mask, Blank, equals + 1);
      var value := AttributeValueEnd(line, mask, start);
      if value == -1 {
        return -1;
      }
      index := value;
    }
  }

  method HtmlTagEnd(line: Line, mask: array<Flag>, from: nat) returns (r: int)
    requires |line| == mask.Length
    ensures r == TagEnd(line, mask[..], from)
  {
    hide Skip, Reads, AttributesEnd;
    var index := from;
    var closing := index < |line| && line[index] == SLASH;
    if closing {
      index := index + 1;
    }
    if index >= |line| || mask[index] != Keep || !IsAsciiLetter(line[index]) {
      return -1;
    }
    index := SkipRun(line, mask, TagName, index);
    if closing {
      index := SkipRun(line, mask, Blank, index);
      var ends := Looks(line, mask, index, ANGLE_CLOSE);
      return if ends then index else -1;
    }
    r := ScanAttributes(line, mask, index);
  }

  // ---------------------------------------------------------------- the pass

  /** What the pass does at a position. */
  datatype Action = Pass | Hide(end: nat) | Unwrap(close: nat) | Stop

  /** The action, with every search made afresh. */
  function ActionAt(line: Line, mask: Mask, index: nat): (a: Action)
    requires |line| == |mask| && index < |line|
    ensures a.Hide? ==> index < a.end <= |line|
    ensures a.Unwrap? ==> index < a.close < |line|
  {
    if line[index] != ANGLE_OPEN || mask[index] != Keep then Pass
    else
      var comment :=
        if StartsAt(line, COMMENT_OPEN, index) then NextNeedle(line, mask, COMMENT_CLOSE, index + 4) else -1;
      if comment != -1 then Hide(comment + 3)
      else if index + 1 >= |line| || !(IsAsciiLetter(line[index + 1]) || line[index + 1] == SLASH) then Pass
      else
        var close := NextNeedle(line, mask, [ANGLE_CLOSE], index + 1);
        if close == -1 then Stop
        else if IsAutolink(line[index + 1..close]) then Unwrap(close)
        else
          var end := TagEnd(line, mask, index + 1);
          if end == -1 then Pass else Hide(end + 1)
  }

  function After(mask: Mask, index: nat, a: Action): (m: Mask)
    requires index < |mask| && (a.Hide? ==> a.end <= |mask|) && (a.Unwrap? ==> index < a.close < |mask|)
    ensures |m| == |mask|
  {
    match a
    case Hide(end) => Fill(mask, Space, index, end)
    case Unwrap(close) => Fill(mask[index := Drop], Literal, index + 1, close)[close := Drop]
    case _ => mask
  }

  function NextIndex(index: nat, a: Action): nat {
    match a
    case Hide(end) => end
    case Unwrap(close) => close + 1
    case _ => index + 1
  }

  /** The pass from `index` on: it touches nothing to the left, and keeps nothing that was masked. */
  function HtmlMarked(line: Line, mask: Mask, index: nat): (m: Mask)
    requires |line| == |mask| && index <= |line|
    ensures |m| == |mask| && forall k :: 0 <= k < index ==> m[k] == mask[k]
    ensures forall k :: 0 <= k < |m| && m[k] == Keep ==> mask[k] == Keep
    decreases |line| - index
  {
    if index == |line| then mask
    else
      var a := ActionAt(line, mask, index);
      if a == Stop then mask else HtmlMarked(line, After(mask, index, a), NextIndex(index, a))
  }

  /** `cached` is still the answer for searches from here on, if it lies ahead at all. */
  predicate CacheHolds(line: Line, mask: Mask, cached: int, index: nat)
    requires |line| == |mask|
  {
    cached > index ==> cached < |line| && NextNeedle(line, mask, [ANGLE_CLOSE], index + 1) == cached
  }

  predicate NoMoreComments(line: Line, mask: Mask, index: nat)
    requires |line| == |mask|
  {
    forall k :: index + 4 <= k < |line| ==> !NeedleHit(line, mask, COMMENT_CLOSE, k)
  }

  lemma CacheMoves(line: Line, mask: Mask, cached: int, index: nat, later: Mask, next: nat)
    requires |line| == |mask| && CacheHolds(line, mask, cached, index)
    requires index < next && AgreeFrom(mask, later, next)
    ensures CacheHolds(line, later, cached, next)
  {
    if cached > next {
      assert forall k :: next + 1 <= k < |line| ==>
        (NeedleHit(line, mask, [ANGLE_CLOSE], k) <==> NeedleHit(line, later, [ANGLE_CLOSE], k));
      NeedleUnique(line, later, [ANGLE_CLOSE], next + 1, cached);
    }
  }

  lemma CommentsStayAway(line: Line, mask: Mask, index: nat, later: Mask, next: nat)
    requires |line| == |mask| && NoMoreComments(line, mask, index)
    requires index < next && AgreeFrom(mask, later, next)
    ensures NoMoreComments(line, later, next)
  {
    forall k | next + 4 <= k < |line|
      ensures !NeedleHit(line, later, COMMENT_CLOSE, k)
    {
      assert !NeedleHit(line, mask, COMMENT_CLOSE, k);
    }
  }

  /** The action at a position as the pass finds it out, with what it remembers afterwards. */
  method FindAction(line: Line, mask: array<Flag>, index: nat, exhausted: bool, cached: int)
    returns (a: Action, exhausted': bool, cached': int)
    requires |line| == mask.Length && index < |line|
    requires CacheHolds(line, mask[..], cached, index) && (exhausted ==> NoMoreComments(line, mask[..], index))
    ensures a == ActionAt(line, mask[..], index)
    ensures CacheHolds(line, mask[..], cached', index) && (exhausted' ==> NoMoreComments(line, mask[..], index))
  {
    hide IsAutolink, TagEnd;
    exhausted', cached' := exhausted, cached;
    if line[index] != ANGLE_OPEN || mask[index] != Keep {
      return Pass, exhausted, cached;
    }
    if !exhausted && StartsAt(line, COMMENT_OPEN, index) {
      var comment := IndexOfUnmasked(line, mask, COMMENT_CLOSE, index + 4);
      if comment == -1 {
        exhausted' := true;
      } else {
        return Hide(comment + 3), exhausted, cached;
      }
    } else if exhausted {
      NeedleUnique(line, mask[..], COMMENT_CLOSE, index + 4, -1);
    }
    if index + 1 >= |line| || !(IsAsciiLetter(line[index + 1]) || line[index + 1] == SLASH) {
      return Pass, exhausted', cached;
    }
    if cached <= index {
      cached' := IndexOfUnmasked(line, mask, [ANGLE_CLOSE], index + 1);
    }
    if cached' == -1 {
      return Stop, exhausted', cached';
    }
    if IsAutolink(line[index + 1..cached']) {
      return Unwrap(cached'), exhausted', cached';
    }
    var end := HtmlTagEnd(line, mask, index + 1);
    a := if end == -1 then Pass else Hide(end + 1);
  }

  /** With its two memories the pass marks exactly what searching afresh at every `<` marks. */
  method MarkHtml(line: Line, mask: array<Flag>)
    requires |line| == mask.Length
    modifies mask
    ensures mask[..] == HtmlMarked(line, old(mask[..]), 0)
  {
    hide ActionAt, CacheHolds, NoMoreComments;
    var exhausted, cached, index := false, -1, 0;
    assert CacheHolds(line, mask[..], -1, 0) by { NothingCached(line, mask[..], 0); }
    while index < |line|
      invariant 0 <= index <= |line|
      invariant HtmlMarked(line, mask[..], index) == HtmlMarked(line, old(mask[..]), 0)
      invariant CacheHolds(line, mask[..], cached, index)
      invariant exhausted ==> NoMoreComments(line, mask[..], index)
    {
      ghost var before := mask[..];
      var a;
      a, exhausted, cached := FindAction(line, mask, index, exhausted, cached);
      match a {
        case Pass =>
        case Stop => return;
        case Hide(end) => FillArray(mask, Space, index, end);
        case Unwrap(close) =>
          mask[index] := Drop;
          FillArray(mask, Literal, index + 1, close);
          mask[close] := Drop;
      }
      assert mask[..] == After(before, index, a);
      CacheMoves(line, before, cached, index, mask[..], NextIndex(index, a));
      if exhausted {
        CommentsStayAway(line, before, index, mask[..], NextIndex(index, a));
      }
      index := NextIndex(index, a);
    }
  }

  lemma NothingCached(line: Line, mask: Mask, index: nat)
    requires |line| == |mask|
    ensures CacheHolds(line, mask, -1, index)
  {
  }
}
