/** Text operations of the host language: white space, decimal digits, splitting. */
module JsText {

  predicate IsSpace(c: char) {
    var n := c as int;
    n == 0x20 || 0x09 <= n <= 0x0D || n == 0xA0 || n == 0x1680 || 0x2000 <= n <= 0x200A ||
    n == 0x2028 || n == 0x2029 || n == 0x202F || n == 0x205F || n == 0x3000 || n == 0xFEFF
  }

  predicate IsDigit(c: char) {
    '0' <= c <= '9'
  }

  function DigitValue(c: char): nat
    requires IsDigit(c)
  {
    c as int - '0' as int
  }

  function Digits(n: nat): string {
    if n < 10 then [(n as char) + '0'] else Digits(n / 10) + [((n % 10) as char) + '0']
  }

  // The length of the longest prefix of digits.
  function DigitsAhead(s: string): nat {
    if s == "" || !IsDigit(s[0]) then 0 else 1 + DigitsAhead(s[1..])
  }

  function Unsigned(s: string): nat
    requires forall i :: 0 <= i < |s| ==> IsDigit(s[i])
  {
    if s == "" then 0 else 10 * Unsigned(s[..|s|-1]) + DigitValue(s[|s|-1])
  }

  lemma {:induction false} DigitsAheadAre(s: string)
    ensures DigitsAhead(s) <= |s| && forall i :: 0 <= i < DigitsAhead(s) ==> IsDigit(s[i])
    ensures DigitsAhead(s) < |s| ==> !IsDigit(s[DigitsAhead(s)])
    decreases |s|
  {
    if s != "" && IsDigit(s[0]) {
      DigitsAheadAre(s[1..]);
      forall i | 0 <= i < DigitsAhead(s)
        ensures IsDigit(s[i])
      {
        if i > 0 { assert s[i] == s[1..][i-1]; }
      }
    }
  }

  datatype ParsedInt = NotANumber | Int(value: int)

  function ParseDigits(s: string): ParsedInt {
    DigitsAheadAre(s);
    if DigitsAhead(s) == 0 then NotANumber else Int(Unsigned(s[..DigitsAhead(s)]))
  }

  // parseInt(s, 10): leading white space, a sign, and the digits that follow.
  function ParseInt(s: string): ParsedInt {
    if s == "" then NotANumber
    else if IsSpace(s[0]) then ParseInt(s[1..])
    else if s[0] == '-' then
      match ParseDigits(s[1..])
      case NotANumber => NotANumber
      case Int(n) => Int(-n)
    else if s[0] == '+' then ParseDigits(s[1..])
    else ParseDigits(s)
  }

  // The parts between separators; always at least one.
  function Split(s: string, separator: char): (parts: seq<string>)
    ensures parts != []
  {
    if s == "" then [""]
    else
      var rest := Split(s[1..], separator);
      if s[0] == separator then [""] + rest else [[s[0]] + rest[0]] + rest[1..]
  }

  // Text without the separator is one part, and text up to the first separator
  // is the first part.
  lemma {:induction false} SplitWhole(s: string, separator: char)
    requires forall i :: 0 <= i < |s| ==> s[i] != separator
    ensures Split(s, separator) == [s]
    decreases |s|
  {
    if s != "" {
      SplitWhole(s[1..], separator);
      assert [s[0]] + s[1..] == s;
    }
  }

  lemma {:induction false} SplitFirst(s: string, rest: string, separator: char)
    requires forall i :: 0 <= i < |s| ==> s[i] != separator
    ensures Split(s + [separator] + rest, separator) == [s] + Split(rest, separator)
    decreases |s|
  {
    var t := s + [separator] + rest;
    if s == "" {
      assert t[1..] == rest;
    } else {
      SplitFirst(s[1..], rest, separator);
      assert t[1..] == s[1..] + [separator] + rest && [s[0]] + s[1..] == s;
    }
  }

  // ------------------------------------------------------------- round trips

  lemma {:induction false} DigitsAreDigits(n: nat)
    ensures Digits(n) != "" && (forall i :: 0 <= i < |Digits(n)| ==> IsDigit(Digits(n)[i])) && Unsigned(Digits(n)) == n
    decreases n
  {
    if n >= 10 {
      DigitsAreDigits(n / 10);
      assert Digits(n)[..|Digits(n)|-1] == Digits(n / 10);
    }
  }

  lemma {:induction false} DigitsAheadAll(s: string, rest: string)
    requires (forall i :: 0 <= i < |s| ==> IsDigit(s[i])) && (rest == "" || !IsDigit(rest[0]))
    ensures DigitsAhead(s + rest) == |s|
    decreases |s|
  {
    if s == "" {
      assert s + rest == rest;
    } else {
      DigitsAheadAll(s[1..], rest);
      assert (s + rest)[1..] == s[1..] + rest;
    }
  }

  // A number printed in decimal is read back, whatever follows that is no digit.
  lemma ParsePrinted(n: nat, rest: string)
    requires rest == "" || !IsDigit(rest[0])
    ensures ParseInt(Digits(n) + rest) == Int(n) && ParseInt("-" + Digits(n) + rest) == Int(0 - n)
  {
    DigitsAreDigits(n);
    DigitsAheadAll(Digits(n), rest);
    var s := Digits(n) + rest;
    assert s[0] == Digits(n)[0] && IsDigit(s[0]);
    assert s[..|Digits(n)|] == Digits(n);
    assert ("-" + Digits(n) + rest)[1..] == s;
    hide Digits, Unsigned, DigitsAhead;
  }
}
