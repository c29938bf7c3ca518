/** The few string primitives of the host language that several parts rely on. */
module JsText {

  /** The code units that `String.prototype.trim` removes. */
  predicate IsTrimmed(u: int) {
    || 0x09 <= u <= 0x0D
    || u == 0x20
    || u == 0xA0
    || u == 0x1680
    || 0x2000 <= u <= 0x200A
    || u == 0x2028
    || u == 0x2029
    || u == 0x202F
    || u == 0x205F
    || u == 0x3000
    || u == 0xFEFF
  }

  function TrimStart(s: string): string {
    if |s| > 0 && IsTrimmed(s[0] as int) then TrimStart(s[1..]) else s
  }

  function TrimEnd(s: string): string {
    if |s| > 0 && IsTrimmed(s[|s| - 1] as int) then TrimEnd(s[..|s| - 1]) else s
  }

  /** `text.split(separator)` for a one-character separator. */
  function Split(s: string, separator: char): (parts: seq<string>)
    ensures |parts| > 0
  {
    if |s| == 0 then [""]
    else
      var rest := Split(s[1..], separator);
      if s[0] == separator then [""] + rest else [[s[0]] + rest[0]] + rest[1..]
  }

  function Join(parts: seq<string>, separator: char): string {
    if |parts| == 0 then ""
    else if |parts| == 1 then parts[0]
    else parts[0] + [separator] + Join(parts[1..], separator)
  }

  /** The parts make up the text again and hold no separator. */
  lemma {:induction false} SplitJoins(s: string, separator: char)
    ensures Join(Split(s, separator), separator) == s
    ensures forall k :: 0 <= k < |Split(s, separator)| ==> separator !in Split(s, separator)[k]
  {
    if |s| > 0 {
      SplitJoins(s[1..], separator);
      var rest := Split(s[1..], separator);
      assert s == [s[0]] + s[1..];
      if s[0] == separator {
        assert ([""] + rest)[1..] == rest;
      } else {
        assert ([[s[0]] + rest[0]] + rest[1..])[1..] == rest[1..];
      }
    }
  }

  function DigitValue(c: char): int {
    if '0' <= c <= '9' then c as int - '0' as int
    else if 'a' <= c <= 'z' then c as int - 'a' as int + 10
    else if 'A' <= c <= 'Z' then c as int - 'A' as int + 10
    else 36
  }

  predicate AllDigits(s: string, radix: int) {
    |s| > 0 && forall i :: 0 <= i < |s| ==> DigitValue(s[i]) < radix
  }

  function DigitsValue(s: string, radix: int): int {
    if |s| == 0 then 0 else DigitsValue(s[..|s| - 1], radix) * radix + DigitValue(s[|s| - 1])
  }

  datatype BigIntResult = BigInt(value: int) | NotANumber

  /** `BigInt(text)`: blank is zero; `0x`, `0o` and `0b` literals; signed decimal digits. */
  function ParseBigInt(text: string): BigIntResult {
    var s := TrimEnd(TrimStart(text));
    if |s| == 0 then BigInt(0)
    else if |s| > 2 && s[0] == '0' && (s[1] == 'x' || s[1] == 'X') then Unsigned(s[2..], 16)
    else if |s| > 2 && s[0] == '0' && (s[1] == 'o' || s[1] == 'O') then Unsigned(s[2..], 8)
    else if |s| > 2 && s[0] == '0' && (s[1] == 'b' || s[1] == 'B') then Unsigned(s[2..], 2)
    else if s[0] == '+' then Unsigned(s[1..], 10)
    else if s[0] == '-' then
      match Unsigned(s[1..], 10)
      case BigInt(n) => BigInt(-n)
      case NotANumber => NotANumber
    else Unsigned(s, 10)
  }

  function Unsigned(s: string, radix: int): BigIntResult {
    if AllDigits(s, radix) then BigInt(DigitsValue(s, radix)) else NotANumber
  }

  /** `String(n)` for a natural number. */
  function Decimal(n: nat): (s: string)
    ensures AllDigits(s, 10) && forall i :: 0 <= i < |s| ==> '0' <= s[i] <= '9'
  {
    var digit := '0' + (n % 10) as char;
    if n < 10 then [digit] else Decimal(n / 10) + [digit]
  }

  lemma {:induction false} DecimalReads(n: nat)
    ensures DigitsValue(Decimal(n), 10) == n
  {
    var s := Decimal(n);
    if n >= 10 {
      DecimalReads(n / 10);
      assert s[..|s| - 1] == Decimal(n / 10);
    } else {
      assert s[..|s| - 1] == "";
    }
  }
}
