/** Character-level helpers shared by the header parsers and the formatters:
    decimal digits, JavaScript's `parseInt` on a decimal string, the
    `${n}` rendering of a natural number, and substring search. */
module Text {
  import opened Wrappers

  predicate IsDigit(c: char) {
    '0' <= c <= '9'
  }

  predicate AllDigits(s: string) {
    forall i :: 0 <= i < |s| ==> IsDigit(s[i])
  }

  /** The value of a decimal digit character (0 for any other character). */
  function DigitValue(c: char): nat {
    if IsDigit(c) then c as int - '0' as int else 0
  }

  function DigitChar(d: nat): (c: char)
    requires d < 10
    ensures IsDigit(c) && DigitValue(c) == d
  {
    ('0' as int + d) as char
  }

  /** The value of a string of decimal digits, most significant first. */
  function DecimalValue(ds: string): nat {
    if ds == [] then 0 else DecimalValue(ds[..|ds| - 1]) * 10 + DigitValue(ds[|ds| - 1])
  }

  /** `${n}` for a non-negative integer: its shortest decimal rendering. */
  function NatToString(n: nat): (s: string)
    ensures s != [] && AllDigits(s)
    ensures DecimalValue(s) == n
    ensures s[0] == '0' ==> s == "0"
  {
    if n < 10 then [DigitChar(n)]
    else
      var init := NatToString(n / 10);
      assert (init + [DigitChar(n % 10)])[..|init|] == init;
      init + [DigitChar(n % 10)]
  }

  /** The longest prefix of `s` made of decimal digits. */
  function DigitRun(s: string): (d: string)
    ensures |d| <= |s|
  {
    if s == [] || !IsDigit(s[0]) then [] else [s[0]] + DigitRun(s[1..])
  }

  lemma {:induction false} DigitRunIsLongestDigitPrefix(s: string)
    ensures var d := DigitRun(s);
            && |d| <= |s| && d == s[..|d|]
            && AllDigits(d)
            && (|d| < |s| ==> !IsDigit(s[|d|]))
  {
    if s != [] && IsDigit(s[0]) {
      DigitRunIsLongestDigitPrefix(s[1..]);
    }
  }

  lemma DigitRunOfDigitsThen(d: string, t: string)
    requires AllDigits(d)
    requires t == [] || !IsDigit(t[0])
    ensures DigitRun(d + t) == d
  {
    DigitRunIsLongestDigitPrefix(d + t);
    var r := DigitRun(d + t);
    assert r == (d + t)[..|d|] == d;
  }

  /** The white space JavaScript's `parseInt` skips before the number. */
  predicate IsSpace(c: char) {
    c == ' ' || c == '\t' || c == '\n' || c == '\r' || c == '\U{000B}' || c == '\U{000C}'
    || c == '\U{00A0}' || c == '\U{FEFF}'
  }

  /** `s` without its leading white space. */
  function TrimStart(s: string): string {
    if s != [] && IsSpace(s[0]) then TrimStart(s[1..]) else s
  }

  /** The longest digit prefix is the only digit prefix that is not followed
      by another digit. */
  lemma DigitRunIsUnique(s: string)
    ensures forall d :: d != [] && AllDigits(d) && StartsWith(s, d) && (|d| == |s| || !IsDigit(s[|d|])) ==>
              DigitRun(s) == d
  {
    forall d | d != [] && AllDigits(d) && StartsWith(s, d) && (|d| == |s| || !IsDigit(s[|d|]))
      ensures DigitRun(s) == d
    {
      assert s == d + s[|d|..];
      DigitRunOfDigitsThen(d, s[|d|..]);
    }
  }

  /** The text `parseInt` reads digits from: `s` without its leading white
      space and without one sign character after it. */
  function Unsigned(s: string): string {
    var t := TrimStart(s);
    if t != [] && (t[0] == '-' || t[0] == '+') then t[1..] else t
  }

  /** Whether a minus sign follows the leading white space. */
  predicate NegativeSign(s: string) {
    var t := TrimStart(s);
    t != [] && t[0] == '-'
  }

  /** JavaScript's `parseInt(s)` for decimal input: leading white space, an
      optional sign, then the longest run of digits; `None` stands for `NaN`. */
  function ParseInt(s: string): (r: Option<int>)
    ensures r.None? <==> Unsigned(s) == [] || !IsDigit(Unsigned(s)[0])
    ensures forall d :: d != [] && AllDigits(d) && StartsWith(Unsigned(s), d)
                        && (|d| == |Unsigned(s)| || !IsDigit(Unsigned(s)[|d|])) ==>
              r == Some(if NegativeSign(s) then -(DecimalValue(d) as int) else DecimalValue(d))
  {
    var body := Unsigned(s);
    var digits := DigitRun(body);
    DigitRunIsUnique(body);
    var magnitude: int := DecimalValue(digits);
    if digits == [] then None
    else if NegativeSign(s) then Some(-magnitude)
    else Some(magnitude)
  }

  /** `parseInt` reads back what `${n}` wrote, whatever follows it, as long as
      the next character is not a digit. */
  lemma ParseIntOfRendered(n: nat, rest: string)
    requires rest == [] || !IsDigit(rest[0])
    ensures ParseInt(NatToString(n) + rest) == Some(n)
  {
    var s := NatToString(n);
    assert (s + rest)[0] == s[0];
    DigitRunOfDigitsThen(s, rest);
  }

  predicate StartsWith(s: string, prefix: string) {
    |prefix| <= |s| && s[..|prefix|] == prefix
  }

  predicate EndsWith(s: string, suffix: string) {
    |suffix| <= |s| && s[|s| - |suffix|..] == suffix
  }

  /** JavaScript's `s.includes(sub)`. */
  predicate Contains(s: string, sub: string)
    decreases |s|
  {
    StartsWith(s, sub) || (s != [] && Contains(s[1..], sub))
  }

  lemma {:induction false} ContainsAt(s: string, sub: string, i: nat)
    requires i + |sub| <= |s| && s[i..i + |sub|] == sub
    ensures Contains(s, sub)
    decreases i
  {
    if i > 0 {
      assert s[1..][i - 1..i - 1 + |sub|] == sub;
      ContainsAt(s[1..], sub, i - 1);
    }
  }

  /** A string that never holds the first character of `sub` cannot contain it. */
  lemma {:induction false} NotContainsWithoutFirst(s: string, sub: string)
    requires sub != []
    requires forall i :: 0 <= i < |s| ==> s[i] != sub[0]
    ensures !Contains(s, sub)
    decreases |s|
  {
    if s != [] {
      assert |sub| <= |s| ==> s[..|sub|][0] == s[0];
      NotContainsWithoutFirst(s[1..], sub);
    }
  }
}
