/** Decimal printing and scanning as strconv and fmt do it, on Go's 64-bit integers. */
module Decimal {
  import opened Text

  const MAX_INT: int := 0x7FFF_FFFF_FFFF_FFFF
  const MIN_INT: int := -0x8000_0000_0000_0000
  const TWO_64: int := 0x1_0000_0000_0000_0000

  predicate IsInt(n: int) {
    MIN_INT <= n <= MAX_INT
  }

  /** The value an int variable holds after arithmetic whose exact result is n. */
  function WrapInt(n: int): (r: int)
    ensures IsInt(r)
    ensures IsInt(n) ==> r == n
  {
    (n - MIN_INT) % TWO_64 + MIN_INT
  }

  lemma WrapIntSucc(n: int)
    ensures WrapInt(WrapInt(n) + 1) == WrapInt(n + 1)
  {
  }

  /** The conversion uint(n) of an int. */
  function Uint(n: int): (r: nat)
    ensures r < TWO_64
    ensures 0 <= n < TWO_64 ==> r == n
  {
    n % TWO_64
  }

  predicate IsDigit(c: char) {
    '0' <= c <= '9'
  }

  predicate AllDigits(s: string) {
    forall i | 0 <= i < |s| :: IsDigit(s[i])
  }

  function DigitOf(d: nat): (c: char)
    requires d < 10
    ensures IsDigit(c) && DigitValue(c) == d
  {
    '0' + d as char
  }

  function DigitValue(c: char): (d: nat)
    requires IsDigit(c)
    ensures d < 10
  {
    (c - '0') as nat
  }

  /** The number that a digit string denotes in the given base. */
  function Value(s: string, base: nat): nat
    requires AllDigits(s)
  {
    if s == "" then 0 else Value(s[..|s| - 1], base) * base + DigitValue(s[|s| - 1])
  }

  /** The decimal digits of n, without leading zeros. */
  function Utoa(n: nat): (s: string)
    ensures s != ""
  {
    if n < 10 then [DigitOf(n)] else Utoa(n / 10) + [DigitOf(n % 10)]
  }

  /** The digits denote the number, and only zero begins with a zero. */
  lemma {:induction false} UtoaValue(n: nat)
    ensures AllDigits(Utoa(n))
    ensures Value(Utoa(n), 10) == n
    ensures n > 0 ==> Utoa(n)[0] != '0'
  {
    var s := Utoa(n);
    if n < 10 {
      assert s[..0] == "";
    } else {
      UtoaValue(n / 10);
      assert s[..|s| - 1] == Utoa(n / 10);
    }
  }

  /** strconv.Itoa. */
  function Itoa(n: int): (s: string)
    ensures s != ""
  {
    if n < 0 then "-" + Utoa(-n) else Utoa(n)
  }

  /** The pair that strconv.Atoi returns; callers that drop the error still use the value. */
  datatype Parsed = Parsed(value: int, ok: bool)

  /** strconv.Atoi: a syntax error gives 0, a value out of range the nearest bound. */
  function Atoi(s: string): (r: Parsed)
    ensures IsInt(r.value)
  {
    var signed := s != "" && (s[0] == '-' || s[0] == '+');
    var digits := if signed then s[1..] else s;
    if digits == "" || !AllDigits(digits) then Parsed(0, false)
    else
      var n := if signed && s[0] == '-' then 0 - Value(digits, 10) as int else Value(digits, 10) as int;
      if n > MAX_INT then Parsed(MAX_INT, false)
      else if n < MIN_INT then Parsed(MIN_INT, false)
      else Parsed(n, true)
  }

  /** Every int survives printing and parsing; any other number comes back as the nearest bound. */
  lemma AtoiItoa(n: int)
    ensures Atoi(Itoa(n)).ok <==> IsInt(n)
    ensures Atoi(Itoa(n)).value == if n > MAX_INT then MAX_INT else if n < MIN_INT then MIN_INT else n
    ensures IsInt(n) ==> Atoi(Itoa(n)) == Parsed(n, true)
  {
    var s := Itoa(n);
    UtoaValue(if n < 0 then -n else n);
    if n < 0 {
      assert s[1..] == Utoa(-n);
    } else {
      assert IsDigit(s[0]);
    }
  }

  /** Leading zeros and a plus sign are read as well, and anything but one sign and digits is an error. */
  lemma AtoiReads(sign: string, digits: string)
    requires sign == "" || sign == "+" || sign == "-"
    requires digits != "" && digits[0] != '+' && digits[0] != '-'
    ensures Atoi(sign + digits).ok <==>
              AllDigits(digits) && IsInt(if sign == "-" then 0 - Value(digits, 10) else Value(digits, 10))
    ensures Atoi(sign + digits).ok ==>
              Atoi(sign + digits).value == if sign == "-" then 0 - Value(digits, 10) else Value(digits, 10)
    ensures !AllDigits(digits) ==> Atoi(sign + digits).value == 0
  {
    var s := sign + digits;
    if sign == "" {
      assert s == digits;
    } else {
      assert s[1..] == digits;
    }
  }

  lemma ItoaIsClean(n: int)
    ensures Trimmed(Itoa(n)) && '\n' !in Itoa(n) && ':' !in Itoa(n) && '\t' !in Itoa(n)
  {
    UtoaValue(if n < 0 then -n else n);
    assert forall i | 0 <= i < |Itoa(n)| :: IsDigit(Itoa(n)[i]) || Itoa(n)[i] == '-';
  }

  /** The number of digits is bounded by any power of ten above the number. */
  lemma {:induction false} UtoaLength(n: nat, k: nat, bound: nat)
    requires k > 0 && bound == Pow10(k) && n < bound
    ensures |Utoa(n)| <= k
  {
    if n >= 10 {
      assert k > 1;
      UtoaLength(n / 10, k - 1, Pow10(k - 1));
    }
  }

  function Pow10(k: nat): nat {
    if k == 0 then 1 else 10 * Pow10(k - 1)
  }

  function Zeros(k: nat): (s: string)
    ensures |s| == k && AllDigits(s) && forall i | 0 <= i < k :: s[i] == '0'
  {
    seq(k, _ => '0')
  }

  lemma {:induction false} LeadingZeros(k: nat, s: string, base: nat)
    requires AllDigits(s)
    ensures Value(Zeros(k) + s, base) == Value(s, base)
  {
    var z := Zeros(k) + s;
    if s != "" {
      LeadingZeros(k, s[..|s| - 1], base);
      assert z[..|z| - 1] == Zeros(k) + s[..|s| - 1];
    } else if k > 0 {
      LeadingZeros(k - 1, s, base);
      assert z[..|z| - 1] == Zeros(k - 1) + s;
    }
  }

  /** The verb %0Nd for a non-negative number. */
  function PadTo(width: nat, n: nat): (s: string)
    ensures AllDigits(s) && |s| == if |Utoa(n)| < width then width else |Utoa(n)|
  {
    var d := Utoa(n);
    UtoaValue(n);
    if |d| < width then Zeros(width - |d|) + d else d
  }

  /** A padded number still denotes the number, whatever its width. */
  lemma PadValue(width: nat, n: nat)
    ensures Value(PadTo(width, n), 10) == n
  {
    var d := Utoa(n);
    UtoaValue(n);
    if |d| < width {
      LeadingZeros(width - |d|, d, 10);
    }
  }
}
