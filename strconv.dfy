/**
 * The two Go library conversions the interpreter relies on:
 * `strconv.ParseInt(s, 0, 64)`, which the parser applies to the digits of an
 * INT token, and the decimal rendering `fmt.Sprint` gives an int64.
 * Only digit strings reach ParseInt (the lexer makes INT tokens from digit
 * runs), so signs, underscores and the 0b/0o/0x prefixes never arise.
 */
module Strconv {

  import opened Int64

  const MaxUint64: int := 0xffff_ffff_ffff_ffff

  predicate IsDigit(c: char) {
    '0' <= c <= '9'
  }

  predicate AllDigits(s: string) {
    forall i :: 0 <= i < |s| ==> IsDigit(s[i])
  }

  function DigitValue(c: char): (d: nat)
    requires IsDigit(c)
    ensures d < 10
  {
    c as int - '0' as int
  }

  function DigitChar(d: nat): (c: char)
    requires d < 10
    ensures IsDigit(c) && DigitValue(c) == d
  {
    ('0' as int + d) as char
  }

  /** The number that the digits `s` denote in `base`, read after the
      already-accumulated value `acc` (Horner's rule). */
  function ValueFrom(acc: nat, s: string, base: nat): nat
    requires AllDigits(s)
    decreases s
  {
    if s == [] then acc else ValueFrom(acc * base + DigitValue(s[0]), s[1..], base)
  }

  function DecimalValue(s: string): nat
    requires AllDigits(s)
  {
    ValueFrom(0, s, 10)
  }

  datatype ScanResult = ScanOk(n: nat) | SyntaxError | RangeError

  /** The digit loop of Go's ParseUint: left to right, stopping at the first
      digit that is not valid in the base (a syntax error) or at the first
      step that leaves the uint64 range (a range error). */
  function Scan(s: string, base: nat, acc: nat): ScanResult
    requires AllDigits(s)
  {
    if s == [] then ScanOk(acc)
    else if DigitValue(s[0]) >= base then SyntaxError
    else if acc * base + DigitValue(s[0]) > MaxUint64 then RangeError
    else Scan(s[1..], base, acc * base + DigitValue(s[0]))
  }

  /** `strconv.ParseInt(s, 0, 64)` on a non-empty digit string: a leading `0`
      selects octal for the digits after it. A syntax error yields 0, a value
      beyond the int64 range yields Max; `ok` is false in both cases. */
  function ParseInt(s: string): (r: (int64, bool))
    requires |s| > 0 && AllDigits(s)
    ensures r.1 ==> r.0 >= 0
    ensures !r.1 ==> r.0 == 0 || r.0 == Max
  {
    var (base, digits) := if s[0] == '0' then (8, s[1..]) else (10, s);
    match Scan(digits, base, 0)
    case ScanOk(n) => if n > Max then (Max, false) else (n, true)
    case SyntaxError => (0, false)
    case RangeError => (Max, false)
  }

  /** When no digit is out of range for the base and the value fits in a
      uint64, the scan succeeds with exactly the value the digits denote. */
  lemma {:induction false} ScanValue(s: string, base: nat, acc: nat)
    requires AllDigits(s) && base > 0
    requires forall i :: 0 <= i < |s| ==> DigitValue(s[i]) < base
    requires ValueFrom(acc, s, base) <= MaxUint64
    ensures Scan(s, base, acc) == ScanOk(ValueFrom(acc, s, base))
  {
    if s != [] {
      var next := acc * base + DigitValue(s[0]);
      ValueFromAtLeast(next, s[1..], base);
      ScanValue(s[1..], base, next);
    }
  }

  lemma {:induction false} ValueFromAtLeast(acc: nat, s: string, base: nat)
    requires AllDigits(s) && base > 0
    ensures ValueFrom(acc, s, base) >= acc
    decreases s
  {
    if s != [] {
      var next := acc * base + DigitValue(s[0]);
      assert next >= acc by {
        assert acc * base >= acc * 1 by {
          assert acc * base == acc + acc * (base - 1);
        }
      }
      ValueFromAtLeast(next, s[1..], base);
    }
  }

  /** A decimal literal without a leading zero parses to the number it
      denotes, or fails with Max when that number is beyond the int64 range. */
  lemma DecimalParse(s: string)
    requires |s| > 0 && AllDigits(s) && s[0] != '0'
    ensures DecimalValue(s) <= Max ==> ParseInt(s) == (DecimalValue(s), true)
    ensures DecimalValue(s) > Max ==> ParseInt(s) == (Max, false)
  {
    if DecimalValue(s) <= MaxUint64 {
      ScanValue(s, 10, 0);
    } else {
      ScanOverflow(s, 10, 0);
    }
  }

  /** When the value overflows a uint64 and every digit is valid, the scan
      reports a range error. */
  lemma {:induction false} ScanOverflow(s: string, base: nat, acc: nat)
    requires AllDigits(s) && base > 0
    requires forall i :: 0 <= i < |s| ==> DigitValue(s[i]) < base
    requires acc <= MaxUint64 < ValueFrom(acc, s, base)
    ensures Scan(s, base, acc) == RangeError
    decreases s
  {
    var next := acc * base + DigitValue(s[0]);
    if next <= MaxUint64 {
      ScanOverflow(s[1..], base, next);
    }
  }

  /** A leading `0` selects octal, so a literal whose next digit is an 8 or
      a 9 is a syntax error: it yields 0 and `ok` is false. */
  lemma OctalRejectsEightOrNine(s: string)
    requires |s| >= 2 && AllDigits(s) && s[0] == '0' && (s[1] == '8' || s[1] == '9')
    ensures ParseInt(s) == (0, false)
  {
    assert s[1..][0] == s[1];
  }

  /** Two examples: "09" is rejected, while "017" is octal 15. */
  lemma OctalRejectsNine()
    ensures ParseInt("09") == (0, false)
    ensures ParseInt("017") == (15, true)
  {
    assert "09"[1..] == "9";
    assert "017"[1..] == "17";
    assert "17"[1..] == "7";
  }

  /** The decimal digits of a natural number, most significant first. */
  function FormatNat(n: nat): (s: string)
    ensures |s| > 0 && AllDigits(s)
    ensures |s| > 1 ==> s[0] != '0'
    decreases n
  {
    if n < 10 then [DigitChar(n)] else FormatNat(n / 10) + [DigitChar(n % 10)]
  }

  /** Go's decimal rendering of an integer: a minus sign, then the digits of
      the magnitude. */
  function FormatInt(n: int): (s: string)
    ensures |s| > 0
    ensures n >= 0 ==> AllDigits(s) && DecimalValue(s) == n
    ensures n < 0 ==> s[0] == '-' && AllDigits(s[1..]) && DecimalValue(s[1..]) == -n
  {
    if n < 0 then
      FormatNatValue(-n);
      "-" + FormatNat(-n)
    else
      FormatNatValue(n);
      FormatNat(n)
  }

  lemma {:induction false} FormatNatValue(n: nat)
    ensures DecimalValue(FormatNat(n)) == n
    decreases n
  {
    if n >= 10 {
      FormatNatValue(n / 10);
      ValueFromAppend(0, FormatNat(n / 10), DigitChar(n % 10), 10);
      assert n == (n / 10) * 10 + n % 10;
    } else {
      var s := FormatNat(n);
      assert s == [DigitChar(n)] && s[1..] == [];
      assert ValueFrom(0, s, 10) == ValueFrom(DigitValue(s[0]), s[1..], 10);
    }
  }

  lemma {:induction false} ValueFromAppend(acc: nat, s: string, c: char, base: nat)
    requires AllDigits(s) && IsDigit(c)
    ensures AllDigits(s + [c])
    ensures ValueFrom(acc, s + [c], base) == ValueFrom(acc, s, base) * base + DigitValue(c)
    decreases s
  {
    if s == [] {
      assert [c][1..] == [];
    } else {
      assert (s + [c])[1..] == s[1..] + [c];
      ValueFromAppend(acc * base + DigitValue(s[0]), s[1..], c, base);
    }
  }

  /** Rendering a non-negative int64 in decimal and parsing it back with
      ParseInt gives the same number without error. */
  lemma FormatParseRoundTrip(n: int64)
    requires n >= 0
    ensures ParseInt(FormatInt(n)) == (n, true)
  {
    var s := FormatInt(n);
    if |s| > 1 {
      DecimalParse(s);
    } else {
      assert s == [DigitChar(n)];
      if n == 0 {
        assert s[1..] == [];
      } else {
        DecimalParse(s);
      }
    }
  }
}
