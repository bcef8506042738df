/** The sequence file of a spool area: one locked read, increment and rewrite, and any number of
    processes doing it at once. */
module Sequence {
  import opened Wrappers
  import opened Text
  import opened Decimal
  import opened SpoolFile

  // ---- Scanning and printing ----

  datatype Scanned = AtEnd | Number(n: nat) | NoNumber

  /** The leading digits of s in a base up to ten. */
  function DigitRun(s: string, base: nat): (r: string)
    requires base <= 10
    ensures r <= s && AllDigits(r)
  {
    if s != "" && IsDigit(s[0]) && DigitValue(s[0]) < base then
      var r := [s[0]] + DigitRun(s[1..], base);
      r
    else ""
  }

  /** fmt.Fscan into a uint64: spaces are skipped, a leading zero announces octal. */
  function Fscan(text: string): Scanned {
    var t := TrimLeft(text);
    if t == "" then AtEnd
    else
      var base := if t[0] == '0' then 8 else 10;
      var token := DigitRun(t, base);
      if token == "" || HasPrefixLetter(t, token) then NoNumber
      else if Value(token, base) >= TWO_64 then NoNumber
      else Number(Value(token, base))
  }

  /** Underscores, and base prefixes such as 0x, go beyond the digits that are read here. */
  predicate HasPrefixLetter(t: string, token: string)
    requires token <= t
  {
    |token| < |t| && (t[|token|] == '_' || (token == "0" && t[|token|] in "bBoOxX"))
  }

  /** What Fprintf writes. */
  function Line(n: nat): string {
    Utoa(n) + "\n"
  }

  /** Text at which the digits of a number end. */
  predicate EndsDigits(rest: string) {
    rest == "" || !IsDigit(rest[0])
  }

  predicate DigitsBelow(s: string, base: nat) {
    forall i | 0 <= i < |s| :: IsDigit(s[i]) && DigitValue(s[i]) < base
  }

  lemma {:induction false} DigitRunStops(digits: string, rest: string, base: nat)
    requires base <= 10 && DigitsBelow(digits, base) && EndsDigits(rest)
    ensures DigitRun(digits + rest, base) == digits
  {
    var s := digits + rest;
    if digits != "" {
      assert s[1..] == digits[1..] + rest;
      DigitRunStops(digits[1..], rest, base);
    }
  }

  lemma {:induction false} SkipMargin(margin: string, text: string)
    requires AllSpace(margin) && text != "" && !IsSpace(text[0])
    ensures TrimLeft(margin + text) == text
  {
    hide IsSpace;
    var s := margin + text;
    if margin == "" {
      assert s == text;
    } else {
      SkipMargin(margin[1..], text);
      assert s[1..] == margin[1..] + text;
    }
  }

  lemma DigitIsNoSpace(c: char)
    requires IsDigit(c)
    ensures !IsSpace(c)
  {
  }

  /** What may follow a decimal number; an underscore, or a letter that makes a lone zero a base prefix,
      would still belong to it. */
  predicate Follows(n: nat, rest: string) {
    EndsDigits(rest) && (rest != "" ==> rest[0] != '_' && (n == 0 ==> rest[0] !in "bBoOxX"))
  }

  /** A decimal number is read, whatever white space stands before it and whatever follows it, unless it
      does not fit; nothing but white space is the end of the file. */
  lemma FscanReads(margin: string, n: nat, rest: string)
    requires AllSpace(margin) && Follows(n, rest)
    ensures Fscan(margin + Utoa(n) + rest) == if n < TWO_64 then Number(n) else NoNumber
    ensures Fscan(margin) == AtEnd
  {
    hide IsSpace;
    hide TrimLeft;
    hide Value;
    hide AllSpace;
    BlankIsEnd(margin);
    var d := Utoa(n);
    UtoaValue(n);
    DigitIsNoSpace(d[0]);
    assert margin + d + rest == margin + (d + rest);
    SkipMargin(margin, d + rest);
    if n == 0 {
      ZeroReads(rest);
    } else {
      DigitRunStops(d, rest, 10);
      assert (d + rest)[0] == d[0] && (d + rest)[|d|..] == rest;
    }
  }

  lemma {:induction false} BlankIsEnd(s: string)
    requires AllSpace(s)
    ensures TrimLeft(s) == "" && Fscan(s) == AtEnd
  {
    hide IsSpace;
    if s != "" {
      BlankIsEnd(s[1..]);
    }
  }

  lemma ZeroReads(rest: string)
    requires Follows(0, rest)
    ensures Utoa(0) == "0" && !HasPrefixLetter("0" + rest, "0")
    ensures DigitRun("0" + rest, 8) == "0" && Value("0", 8) == 0
  {
    DigitRunStops("0", rest, 8);
    assert "0"[..0] == "";
  }

  /** Anything else at the start of the text is no number. */
  lemma FscanRejects(margin: string, rest: string)
    requires AllSpace(margin) && rest != "" && !IsSpace(rest[0]) && !IsDigit(rest[0])
    ensures Fscan(margin + rest) == NoNumber
  {
    hide IsSpace;
    hide AllSpace;
    hide TrimLeft;
    hide Value;
    SkipMargin(margin, rest);
  }

  /** A leading zero announces octal digits. */
  lemma FscanReadsOctal(margin: string, digits: string, rest: string)
    requires AllSpace(margin) && digits != "" && DigitsBelow(digits, 8)
    requires EndsDigits(rest) && (rest != "" ==> rest[0] != '_')
    ensures AllDigits(digits)
    ensures Fscan(margin + ("0" + digits) + rest) ==
            if Value(digits, 8) < TWO_64 then Number(Value(digits, 8)) else NoNumber
  {
    hide IsSpace;
    hide TrimLeft;
    hide Value;
    hide AllSpace;
    var d := "0" + digits;
    assert DigitsBelow(d, 8);
    DigitIsNoSpace('0');
    assert margin + d + rest == margin + (d + rest);
    SkipMargin(margin, d + rest);
    DigitRunStops(d, rest, 8);
    LeadingZeros(1, digits, 8);
    assert Zeros(1) + digits == d;
    assert (d + rest)[|d|..] == rest;
  }

  /** Every uint64 is read back from its line. */
  lemma FscanLine(n: nat)
    requires n < TWO_64
    ensures Fscan(Line(n)) == Number(n)
  {
    hide Fscan;
    FscanReads("", n, "\n");
    assert "" + Utoa(n) + "\n" == Line(n);
  }

  // ---- One process alone ----

  /** Which of the system calls of one run succeed. */
  datatype Calls = Calls(open: bool, flock: bool, truncate: bool, seek: bool, write: bool)

  /** GetSeqFor on an opened spool file; `ok` stands for a nil error. */
  method GetSeqFor(file: SpoolFile, calls: Calls) returns (number: nat, ok: bool)
    modifies file
    ensures ok <==> calls.open && calls.flock && !Fscan(old(file.content)).NoNumber?
                    && calls.truncate && calls.seek && calls.write
    ensures ok ==> number == Successor(old(file.content)) && file.content == Line(number)
    ensures !ok ==> file.content == if Emptied(calls, old(file.content)) then "" else old(file.content)
  {
    hide Fscan;
    hide Utoa;
    number := 0;
    if !calls.open {
      return 0, false;
    }
    file.Seek(0);
    if !calls.flock {
      return 0, false;
    }
    match Fscan(file.content) {
      case NoNumber =>
        return 0, false;
      case AtEnd =>
      case Number(n) =>
        number := n;
    }
    number := Uint(number + 1);
    if !calls.truncate {
      return number, false;
    }
    file.Truncate(0);
    if !calls.seek {
      return number, false;
    }
    file.Seek(0);
    if !calls.write {
      return number, false;
    }
    file.WriteString(Line(number));
    return number, true;
  }

  /** The number that follows what the file says; an empty file says zero. */
  function Successor(text: string): nat {
    match Fscan(text)
    case Number(n) => Uint(n + 1)
    case _ => 1
  }

  /** The run fails between emptying the file and rewriting it. */
  predicate Emptied(calls: Calls, text: string) {
    calls.open && calls.flock && !Fscan(text).NoNumber? && calls.truncate && !(calls.seek && calls.write)
  }
}
