/**
 * Python's conversions between `int` and base-10 text: `str(n)` (which is what
 * `'{0}'.format(n)` writes for an int) and `int(s)`. Both refuse numbers with
 * more digits than `sys.get_int_max_str_digits()` allows (4300 by default).
 */
module PyInt {
  import opened Wrappers

  /** Default of `sys.get_int_max_str_digits()`. */
  const MaxStrDigits: nat := 4300

  predicate IsDigit(c: char) {
    '0' <= c <= '9'
  }

  function DigitChar(d: nat): (c: char)
    requires d < 10
    ensures IsDigit(c) && DigitValue(c) == d
  {
    ((d + '0' as int) as char)
  }

  function DigitValue(c: char): nat
    requires IsDigit(c)
  {
    c as int - '0' as int
  }

  function Abs(n: int): nat {
    if n < 0 then -n else n
  }

  /** The decimal digits of `n`, most significant first, without leading zeros. */
  function Digits(n: nat): (s: string)
    ensures |s| > 0
    ensures forall i :: 0 <= i < |s| ==> IsDigit(s[i])
    ensures |s| > 1 ==> s[0] != '0'
    decreases n
  {
    if n < 10 then [DigitChar(n)] else Digits(n / 10) + [DigitChar(n % 10)]
  }

  /** The text `str(n)` produces: a minus sign for a negative number, then its digits. */
  function Format(n: int): (s: string)
    ensures |s| > 0 && IsDigit(s[|s| - 1])
    ensures forall i :: 0 <= i < |s| ==> IsDigit(s[i]) || (i == 0 && s[i] == '-' && n < 0)
    ensures s[0] == '-' <==> n < 0
  {
    if n < 0 then "-" + Digits(-n) else Digits(n)
  }

  /** `str(n)` raises ValueError instead of producing more than `MaxStrDigits` digits. */
  predicate Formattable(n: int) {
    |Digits(Abs(n))| <= MaxStrDigits
  }

  /** The ASCII characters `int()` strips from both ends: tab, line feed, vertical tab, form feed, carriage return and space. */
  predicate IsSpace(c: char) {
    (9 <= c as int <= 13) || c == ' '
  }

  function StripLeft(s: string): (r: string)
    ensures |r| <= |s| && r == s[|s| - |r|..]
    ensures |r| > 0 ==> !IsSpace(r[0])
    ensures forall i :: 0 <= i < |s| - |r| ==> IsSpace(s[i])
  {
    if |s| > 0 && IsSpace(s[0]) then StripLeft(s[1..]) else s
  }

  function StripRight(s: string): (r: string)
    ensures |r| <= |s| && r == s[..|r|]
    ensures |r| > 0 ==> !IsSpace(r[|r| - 1])
    ensures forall i :: |r| <= i < |s| ==> IsSpace(s[i])
  {
    if |s| > 0 && IsSpace(s[|s| - 1]) then StripRight(s[..|s| - 1]) else s
  }

  function Strip(s: string): string {
    StripRight(StripLeft(s))
  }

  /** Digits, optionally grouped by single underscores, as `int()` accepts them in base 10. */
  predicate WellFormedDigits(s: string) {
    && |s| > 0
    && IsDigit(s[0])
    && IsDigit(s[|s| - 1])
    && (forall i :: 0 <= i < |s| ==> IsDigit(s[i]) || s[i] == '_')
    && (forall i :: 0 <= i < |s| - 1 ==> !(s[i] == '_' && s[i + 1] == '_'))
  }

  /** How many digits (not underscores) `s` holds. */
  function DigitCount(s: string): nat {
    if s == [] then 0
    else DigitCount(s[..|s| - 1]) + (if IsDigit(s[|s| - 1]) then 1 else 0)
  }

  /** The number that a string of digits and underscores denotes. */
  function ValueOf(s: string): nat
    requires forall i :: 0 <= i < |s| ==> IsDigit(s[i]) || s[i] == '_'
  {
    if s == [] then 0
    else if s[|s| - 1] == '_' then ValueOf(s[..|s| - 1])
    else 10 * ValueOf(s[..|s| - 1]) + DigitValue(s[|s| - 1])
  }

  /**
   * `int(s)`: `Some(n)` where Python returns `n`, `None` where it raises ValueError.
   * Surrounding whitespace is stripped, one sign is allowed, then well-formed digits.
   */
  function Parse(s: string): (r: Option<int>)
    ensures r.Some? ==> |Strip(s)| > 0 && (r.value < 0 ==> Strip(s)[0] == '-') && (Strip(s)[0] == '-' ==> r.value <= 0)
  {
    var t := Strip(s);
    var body := if |t| > 0 && (t[0] == '-' || t[0] == '+') then t[1..] else t;
    if WellFormedDigits(body) && DigitCount(body) <= MaxStrDigits then
      Some(if |t| > 0 && t[0] == '-' then -(ValueOf(body) as int) else ValueOf(body))
    else
      None
  }

  lemma {:induction false} DigitsValue(n: nat)
    ensures ValueOf(Digits(n)) == n
    ensures DigitCount(Digits(n)) == |Digits(n)|
    decreases n
  {
    var s := Digits(n);
    if n >= 10 {
      DigitsValue(n / 10);
      assert s[..|s| - 1] == Digits(n / 10);
    }
  }

  /** What `str` writes, `int` reads back: the round trip of every formattable integer. */
  lemma ParseFormat(n: int)
    requires Formattable(n)
    ensures Parse(Format(n)) == Some(n)
  {
    var s := Format(n);
    var d := Digits(Abs(n));
    StripNothing(s);
    DigitsValue(Abs(n));
    assert WellFormedDigits(d);
    if n < 0 {
      assert s[1..] == d;
    }
  }

  lemma StripNothing(s: string)
    requires |s| > 0 && !IsSpace(s[0]) && !IsSpace(s[|s| - 1])
    ensures Strip(s) == s
  {
  }

  /** An information separator such as U+001C is not stripped, so `int()` refuses a digit after it. */
  lemma SeparatorRefused()
    ensures Parse([28 as char, '5']) == None
  {
    var s := [28 as char, '5'];
    assert StripLeft(s) == s;
    assert StripRight(s) == s;
  }

  /** Text without digits is refused, whatever whitespace and sign surround it. */
  lemma ParseNeedsDigit(s: string)
    requires forall i :: 0 <= i < |s| ==> !IsDigit(s[i])
    ensures Parse(s) == None
  {
    var t := Strip(s);
    assert forall i :: 0 <= i < |t| ==> !IsDigit(t[i]) by {
      assert t == StripLeft(s)[..|t|];
    }
  }
}
