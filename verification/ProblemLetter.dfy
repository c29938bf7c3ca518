/** Problem labels: A to Z, AA to AZ, and so on without end. */
module ProblemLetter {
  import opened JsText

  predicate IsLabel(s: string) {
    forall i :: 0 <= i < |s| ==> 'A' <= s[i] <= 'Z'
  }

  /** The bijective base-26 value of a label, with A for 1 and Z for 26. */
  function Value(s: string): nat
    requires IsLabel(s)
  {
    if |s| == 0 then 0 else 26 * Value(s[..|s| - 1]) + (s[|s| - 1] as int - 'A' as int + 1)
  }

  function Letters(n: nat): (s: string)
    ensures IsLabel(s) && (n > 0 ==> |s| > 0)
  {
    if n == 0 then "" else Letters((n - 1) / 26) + ['A' + ((n - 1) % 26) as char]
  }

  /** The label of an ordinal reads back as the ordinal. */
  lemma {:induction false} LabelReads(n: nat)
    ensures Value(Letters(n)) == n
  {
    var s := Letters(n);
    if n > 0 {
      LabelReads((n - 1) / 26);
      assert s[..|s| - 1] == Letters((n - 1) / 26);
    }
  }

  /** Every nonempty or empty text over A to Z is the label of its value. */
  lemma {:induction false} EveryLabelIsUsed(s: string)
    requires IsLabel(s)
    ensures Letters(Value(s)) == s
  {
    if |s| > 0 {
      var rest, last := s[..|s| - 1], s[|s| - 1];
      var v: nat, d: nat := Value(rest), last as int - 'A' as int;
      EveryLabelIsUsed(rest);
      assert Value(s) == 26 * v + d + 1;
      NextLetter(v, d);
      assert 'A' + d as char == last;
      assert s == rest + [last];
    }
  }

  lemma NextLetter(v: nat, d: nat)
    requires d < 26
    ensures Letters(26 * v + d + 1) == Letters(v) + ['A' + d as char]
  {
    assert (26 * v + d) / 26 == v && (26 * v + d) % 26 == d;
  }

  /** Alphabetical order among labels of one length. */
  predicate Alphabetical(s: string, t: string)
    requires |s| == |t|
  {
    exists k :: 0 <= k < |s| && s[k] < t[k] && s[..k] == t[..k]
  }

  /** Shorter labels first, then alphabetically. */
  predicate Before(s: string, t: string) {
    |s| < |t| || (|s| == |t| && Alphabetical(s, t))
  }

  lemma {:induction false} AlphabeticalIsLess(s: string, t: string)
    requires IsLabel(s) && IsLabel(t) && |s| == |t| && Alphabetical(s, t)
    ensures Value(s) < Value(t)
  {
    var last := |s| - 1;
    var k :| 0 <= k < |s| && s[k] < t[k] && s[..k] == t[..k];
    if k < last {
      assert s[..last][..k] == s[..k] && t[..last][..k] == t[..k];
      AlphabeticalIsLess(s[..last], t[..last]);
    }
  }

  lemma {:induction false} ShorterIsLess(s: string, t: string)
    requires IsLabel(s) && IsLabel(t) && |s| < |t|
    ensures Value(s) < Value(t)
  {
    if |s| > 0 {
      ShorterIsLess(s[..|s| - 1], t[..|t| - 1]);
    }
  }

  lemma {:induction false} AlphabeticalTotal(s: string, t: string)
    requires |s| == |t| && s != t
    ensures Alphabetical(s, t) || Alphabetical(t, s)
  {
    if s[0] == t[0] {
      AlphabeticalTotal(s[1..], t[1..]);
      var k :| 0 <= k < |s| - 1 && s[1..][k] != t[1..][k] && s[1..][..k] == t[1..][..k];
      assert s[..k + 1] == [s[0]] + s[1..][..k] && t[..k + 1] == [t[0]] + t[1..][..k];
      assert s[k + 1] == s[1..][k] && t[k + 1] == t[1..][k];
    } else {
      assert s[..0] == t[..0];
    }
  }

  /** Labels come in the order of the ordinals, and different ordinals never share one. */
  lemma LabelsInOrder(m: nat, n: nat)
    ensures Before(Letters(m), Letters(n)) <==> m < n
    ensures Letters(m) == Letters(n) <==> m == n
  {
    LabelReads(m);
    LabelReads(n);
    BeforeIsLess(Letters(m), Letters(n));
  }

  lemma BeforeIsLess(s: string, t: string)
    requires IsLabel(s) && IsLabel(t)
    ensures Before(s, t) <==> Value(s) < Value(t)
  {
    if |s| < |t| {
      ShorterIsLess(s, t);
    } else if |t| < |s| {
      ShorterIsLess(t, s);
    } else if s != t {
      AlphabeticalTotal(s, t);
      if Alphabetical(s, t) {
        AlphabeticalIsLess(s, t);
      }
      if Alphabetical(t, s) {
        AlphabeticalIsLess(t, s);
      }
    }
  }

  method ProblemLetter(ordinal: int) returns (text: string)
    ensures ordinal >= 1 ==> IsLabel(text) && |text| > 0 && Value(text) == ordinal
    ensures ordinal < 1 ==> text == if ordinal < 0 then "-" + Decimal(-ordinal) else "0"
  {
    if ordinal < 1 {
      return if ordinal < 0 then "-" + Decimal(-ordinal) else Decimal(0);
    }
    var n := ordinal;
    text := "";
    assert Letters(n) + text == Letters(n);
    while n > 0
      invariant n >= 0 && Letters(ordinal) == Letters(n) + text
    {
      var rem := (n - 1) % 26;
      assert Letters(n) + text == Letters((n - 1) / 26) + (['A' + rem as char] + text);
      text := ['A' + rem as char] + text;
      n := (n - 1) / 26;
    }
    assert Letters(ordinal) == text;
    LabelReads(ordinal);
  }
}
