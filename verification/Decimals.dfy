/**
  Decimal numerals: strconv.Atoi and ParseUint on digits, strconv.FormatUint, and how far printing and
  parsing undo each other.
 */
module Decimals {
  import opened Wrappers

  predicate Digit(c: char) {
    '0' <= c <= '9'
  }

  predicate AllDigits(s: string) {
    forall i :: 0 <= i < |s| ==> Digit(s[i])
  }

  type Digits = s: string | s != [] && AllDigits(s) witness "0"

  function DigitChar(v: nat): (c: char)
    requires v < 10
    ensures Digit(c)
  {
    ('0' as int + v) as char
  }

  function DigitValue(c: char): (v: nat)
    requires Digit(c)
    ensures v < 10 && DigitChar(v) == c
  {
    c as int - '0' as int
  }

  /** The value of a run of digits; also the rules for parsing integers of HTML, section 2.3.4.1. */
  function Number(digits: string): nat
    requires AllDigits(digits)
  {
    if digits == [] then 0
    else
      assert Digit(digits[|digits| - 1]);
      Number(digits[..|digits| - 1]) * 10 + DigitValue(digits[|digits| - 1])
  }

  /** strconv.FormatUint(n, 10) */
  function Format(n: nat): (s: string)
    ensures s != [] && AllDigits(s)
  {
    if n < 10 then [DigitChar(n)] else Format(n / 10) + [DigitChar(n % 10)]
  }

  const UINT64_LIMIT: nat := 0x1_0000_0000_0000_0000
  const UINT16_LIMIT: nat := 0x1_0000

  /** strconv.ParseUint(s, 10, bits), for the limit 2^bits. */
  function ParseUint(s: string, limit: nat): (r: Option<nat>)
    ensures r.Some? <==> s != [] && AllDigits(s) && Number(s) < limit
  {
    if s != [] && AllDigits(s) && Number(s) < limit then Some(Number(s)) else None
  }

  /** A numeral without leading zeros. */
  predicate Canonical(s: string) {
    s != [] && AllDigits(s) && (|s| > 1 ==> s[0] != '0')
  }

  /** Printing gives the only numeral without leading zeros. */
  lemma {:induction false} FormatIsCanonical(n: nat)
    ensures Canonical(Format(n)) && Number(Format(n)) == n
    ensures n > 0 ==> Format(n)[0] != '0'
  {
    var s := Format(n);
    if n < 10 {
      assert s[..|s| - 1] == [];
      assert Number([]) == 0;
    } else {
      FormatIsCanonical(n / 10);
      assert s[..|s| - 1] == Format(n / 10);
      assert s[|s| - 1] == DigitChar(n % 10);
    }
  }

  lemma LastDigit(q: nat, v: nat)
    requires v < 10
    ensures (q * 10 + v) / 10 == q && (q * 10 + v) % 10 == v
  {
  }

  /** A numeral with one digit more. */
  lemma FormatLonger(q: nat, c: char)
    requires q > 0 && Digit(c)
    ensures Format(q * 10 + DigitValue(c)) == Format(q) + [c]
  {
    LastDigit(q, DigitValue(c));
  }

  lemma {:induction false} CanonicalIsFormat(s: string)
    requires Canonical(s)
    ensures Format(Number(s)) == s
    ensures s[0] != '0' ==> Number(s) > 0
    decreases |s|
  {
    var init, last := s[..|s| - 1], s[|s| - 1];
    assert s == init + [last];
    if init == [] {
      assert Number(s) == DigitValue(last);
    } else {
      assert init[0] == s[0];
      CanonicalIsFormat(init);
      FormatLonger(Number(init), last);
    }
  }

  /** Parsing and printing again gives back exactly the numerals without leading zeros. */
  lemma FormatUndoesNumber(s: string)
    requires AllDigits(s)
    ensures Format(Number(s)) == s <==> Canonical(s)
  {
    FormatIsCanonical(Number(s));
    if Canonical(s) {
      CanonicalIsFormat(s);
    }
  }
}
