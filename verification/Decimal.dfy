/** Decimal printing and parsing of machine integers: `strconv.Itoa` and `strconv.Atoi`. */
module Decimal {

  const MAX_INT := 0x7FFF_FFFF_FFFF_FFFF
  const MIN_INT := -0x8000_0000_0000_0000

  predicate IsDigit(c: char) {
    '0' <= c <= '9'
  }

  predicate AllDigits(s: string) {
    forall c :: c in s ==> IsDigit(c)
  }

  function DigitChar(n: nat): (c: char)
    requires n < 10
    ensures IsDigit(c) && DigitValue(c) == n
  {
    '0' + n as char
  }

  function DigitValue(c: char): (n: nat)
    requires IsDigit(c)
    ensures n < 10
  {
    c as int - '0' as int
  }

  /** The value of a run of digits; leading zeros are allowed. */
  function Num(s: string): nat
    requires AllDigits(s)
  {
    if s == [] then 0 else 10 * Num(s[..|s|-1]) + DigitValue(s[|s|-1])
  }

  /** A natural number without leading zeros. */
  function Dec(n: nat): string {
    if n < 10 then [DigitChar(n)] else Dec(n / 10) + [DigitChar(n % 10)]
  }

  lemma {:induction false} NumDec(n: nat)
    ensures Dec(n) != [] && AllDigits(Dec(n))
    ensures Num(Dec(n)) == n
  {
    if n >= 10 {
      NumDec(n / 10);
      assert Dec(n)[..|Dec(n)|-1] == Dec(n / 10);
    } else {
      assert Dec(n)[..0] == [];
    }
  }

  /** `strconv.Itoa`. */
  function Itoa(i: int): string {
    if i < 0 then "-" + Dec(-i) else Dec(i)
  }

  /** The value `strconv.Atoi` returns beside its error, which every caller in the program drops:
      0 for a malformed number, the nearest bound of the machine range for one out of range. */
  function Atoi(s: string): (v: int)
    ensures MIN_INT <= v <= MAX_INT
  {
    var negative := s != [] && s[0] == '-';
    var signed := s != [] && (s[0] == '-' || s[0] == '+');
    var digits := if signed then s[1..] else s;
    if digits == [] || !AllDigits(digits) then 0
    else
      var n: int := Num(digits);
      var v := if negative then -n else n;
      if v > MAX_INT then MAX_INT else if v < MIN_INT then MIN_INT else v
  }

  lemma AtoiDigits(digits: string)
    requires digits != [] && AllDigits(digits)
    ensures Num(digits) <= MAX_INT ==> Atoi(digits) == Num(digits)
    ensures Num(digits) <= -MIN_INT ==> Atoi("-" + digits) + Num(digits) == 0
  {
    assert ("-" + digits)[1..] == digits;
    assert IsDigit(digits[0]);
  }

  /** Leading zeros and a plus sign are read, the digits from the most significant one on. */
  lemma DigitsRead(a: string, c: char)
    requires AllDigits(a) && IsDigit(c)
    ensures AllDigits(a + [c]) && Num(a + [c]) == 10 * Num(a) + (c as int - '0' as int)
  {
    assert (a + [c])[..|a|] == a;
  }

  /** What is no number reads as 0, what is too large as the nearest bound. */
  lemma OddNumbers(digits: string, c: char)
    requires digits != [] && AllDigits(digits) && !IsDigit(c)
    ensures Atoi("") == 0 && Atoi("-") == 0 && Atoi("+") == 0
    ensures Atoi(digits + [c]) == 0 && Atoi("-" + digits + [c]) == 0
    ensures Num(digits) > MAX_INT ==> Atoi(digits) == MAX_INT && Atoi("+" + digits) == MAX_INT
    ensures Num(digits) > -MIN_INT ==> Atoi("-" + digits) == MIN_INT
    ensures Num(digits) <= MAX_INT ==> Atoi("+" + digits) == Num(digits)
  {
    var bad := digits + [c];
    assert c in bad && c in bad[1..];
    assert IsDigit(digits[0]) && bad[0] == digits[0];
    assert ("-" + digits + [c])[1..] == bad;
    assert ("-" + digits)[1..] == digits && ("+" + digits)[1..] == digits;
  }

  /** Printing a machine integer and reading it back is the identity. */
  lemma AtoiItoa(i: int)
    requires MIN_INT <= i <= MAX_INT
    ensures Atoi(Itoa(i)) == i
    ensures Itoa(i) != ""
  {
    var n := if i < 0 then -i else i;
    NumDec(n);
    AtoiDigits(Dec(n));
  }
}
