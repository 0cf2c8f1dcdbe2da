/** Decimal numbers as text, written and read. */
module Decimals {

  predicate IsDigit(c: char) {
    '0' <= c <= '9'
  }

  function DigitOf(n: nat): (c: char)
    requires n < 10
    ensures IsDigit(c)
  {
    '0' + n as char
  }

  function DigitValue(c: char): (n: nat)
    requires IsDigit(c)
    ensures n < 10
  {
    (c - '0') as nat
  }

  /** What a stream prints for a natural number. */
  function Digits(n: nat): (s: string)
    ensures s != "" && forall k :: 0 <= k < |s| ==> IsDigit(s[k])
  {
    if n < 10 then [DigitOf(n)] else Digits(n / 10) + [DigitOf(n % 10)]
  }

  function Decimal(n: int): string {
    if n < 0 then "-" + Digits(-n) else Digits(n)
  }

  function ReadDigits(read: nat, s: string): nat
    decreases |s|
  {
    if s == "" || !IsDigit(s[0]) then read else ReadDigits(10 * read + DigitValue(s[0]), s[1..])
  }

  predicate IsSpace(c: char) {
    c == ' ' || '\t' <= c <= '\r'
  }

  /** `atoi`: leading white space, a sign, and as many digits as there are. */
  function Atoi(s: string): int {
    if s == "" then 0
    else if IsSpace(s[0]) then Atoi(s[1..])
    else if s[0] == '-' then 0 - ReadDigits(0, s[1..])
    else if s[0] == '+' then ReadDigits(0, s[1..])
    else ReadDigits(0, s)
  }

  lemma {:induction false} ReadDigitsOf(n: nat, rest: string)
    ensures ReadDigits(0, Digits(n) + rest) == ReadDigits(n, rest)
  {
    if n < 10 {
      assert ([DigitOf(n)] + rest)[1..] == rest;
    } else {
      var last := [DigitOf(n % 10)];
      assert Digits(n) + rest == Digits(n / 10) + (last + rest);
      ReadDigitsOf(n / 10, last + rest);
      assert (last + rest)[1..] == rest;
    }
  }

  lemma AtoiOfDecimal(n: int)
    ensures Atoi(Decimal(n)) == n
  {
    var m := if n < 0 then -n else n;
    ReadDigitsOf(m, "");
    assert Digits(m) + "" == Digits(m);
    if n < 0 {
      assert Decimal(n)[1..] == Digits(m);
    }
  }

  /** A number may stand behind white space and a sign, and ends before anything else. */
  lemma {:induction false} AtoiReads(spaces: string, n: nat, rest: string)
    requires forall k :: 0 <= k < |spaces| ==> IsSpace(spaces[k])
    requires rest == "" || !IsDigit(rest[0])
    ensures Atoi(spaces + (Digits(n) + rest)) == n && Atoi(spaces + ("+" + (Digits(n) + rest))) == n
    ensures Atoi(spaces + ("-" + (Digits(n) + rest))) == -(n as int)
  {
    if spaces == "" {
      var text := Digits(n) + rest;
      ReadDigitsOf(n, rest);
      assert spaces + text == text && spaces + ("+" + text) == "+" + text && spaces + ("-" + text) == "-" + text;
      assert ("+" + text)[1..] == text && ("-" + text)[1..] == text;
    } else {
      AtoiReads(spaces[1..], n, rest);
      assert (spaces + (Digits(n) + rest))[1..] == spaces[1..] + (Digits(n) + rest);
      assert (spaces + ("+" + (Digits(n) + rest)))[1..] == spaces[1..] + ("+" + (Digits(n) + rest));
      assert (spaces + ("-" + (Digits(n) + rest)))[1..] == spaces[1..] + ("-" + (Digits(n) + rest));
    }
  }
}
