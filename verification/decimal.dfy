/** strconv: decimal rendering and the bounded parsers the state store uses. */
module Decimal {
  import opened Text

  const MAX_INT64: int := 0x7FFF_FFFF_FFFF_FFFF

  predicate IsDigit(c: char) {
    '0' <= c <= '9'
  }

  function DigitValue(c: char): (v: nat)
    requires IsDigit(c)
    ensures v < 10
  {
    (c as int) - ('0' as int)
  }

  function Digit(d: nat): (c: char)
    requires d < 10
    ensures IsDigit(c) && DigitValue(c) == d
  {
    ('0' as int + d) as char
  }

  predicate AllDigits(s: string) {
    forall i | 0 <= i < |s| :: IsDigit(s[i])
  }

  function Digits(n: nat): (s: string)
    ensures s != "" && AllDigits(s)
  {
    if n < 10 then [Digit(n)] else Digits(n / 10) + [Digit(n % 10)]
  }

  function Value(s: string): nat
    requires AllDigits(s)
  {
    if s == "" then 0 else Value(s[..|s| - 1]) * 10 + DigitValue(s[|s| - 1])
  }

  /** strconv.Itoa and FormatInt in base ten. */
  function Itoa(n: int): string {
    if n < 0 then "-" + Digits(-n) else Digits(n)
  }

  /** strconv.ParseUint in base ten; limit is the largest value of the bit size. */
  function ParseUint(s: string, limit: nat): Option<nat> {
    if s == "" || !AllDigits(s) || Value(s) > limit then None else Some(Value(s))
  }

  /** strconv.ParseInt(s, 10, 64). */
  function ParseInt(s: string): Option<int> {
    if s != "" && s[0] == '-' then
      var v := ParseUint(s[1..], MAX_INT64 + 1);
      if v.Some? then Some(-(v.value as int)) else None
    else if s != "" && s[0] == '+' then
      ParseUint(s[1..], MAX_INT64)
    else
      ParseUint(s, MAX_INT64)
  }

  lemma {:induction false} ValueOfDigits(n: nat)
    ensures Value(Digits(n)) == n
  {
    if n < 10 {
      assert [Digit(n)][..0] == "";
    } else {
      ValueOfDigits(n / 10);
      var s := Digits(n);
      assert s[..|s| - 1] == Digits(n / 10);
    }
  }

  /** What FormatInt renders, ParseInt reads back, inside the 64-bit range. */
  lemma ParseIntOfItoa(n: int)
    ensures ParseInt(Itoa(n)) == if -MAX_INT64 - 1 <= n <= MAX_INT64 then Some(n) else None
  {
    if n < 0 {
      ValueOfDigits(-n);
      assert Itoa(n)[1..] == Digits(-n);
    } else {
      ValueOfDigits(n);
      assert IsDigit(Digits(n)[0]);
    }
  }

  lemma ParseUintOfItoa(n: nat, limit: nat)
    ensures ParseUint(Itoa(n), limit) == if n <= limit then Some(n) else None
  {
    ValueOfDigits(n);
  }

  /** Only zero renders as "0". */
  lemma ItoaZero(n: int)
    ensures Itoa(n) == "0" <==> n == 0
    ensures Itoa(n) != ""
  {
    if n >= 0 {
      ValueOfDigits(n);
      ValueOfDigits(0);
    }
  }
}
