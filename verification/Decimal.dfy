/** Decimal integers as `strconv` prints and parses them, with 64-bit widths. */
module Decimal {
  import opened Bytes
  import opened Options

  const UINT_LIMIT: int := 0x1_0000_0000_0000_0000
  const INT_LIMIT: int := 0x8000_0000_0000_0000

  type uint = x: int | 0 <= x < 0x1_0000_0000_0000_0000

  predicate IsDigit(b: byte) {
    48 <= b <= 57
  }

  predicate AllDigits(s: bytes) {
    forall i :: 0 <= i < |s| ==> IsDigit(s[i])
  }

  /** The base-ten value of a string of digits; the empty string counts as zero. */
  function DigitsValue(s: bytes): nat
    requires AllDigits(s)
  {
    if s == [] then 0
    else 10 * DigitsValue(s[..|s| - 1]) + (s[|s| - 1] as int - 48)
  }

  /** `strconv.FormatUint(n, 10)`. */
  function FormatUint(n: nat): (s: bytes)
    ensures s != [] && AllDigits(s)
  {
    var digit := [(48 + n % 10) as byte];
    if n < 10 then digit else FormatUint(n / 10) + digit
  }

  /** `strconv.ParseUint(s, 10, 64)`: no sign, no underscore, no empty string, no overflow. */
  function ParseUint(s: bytes): Option<uint> {
    if s != [] && AllDigits(s) && DigitsValue(s) < UINT_LIMIT then Some(DigitsValue(s)) else None
  }

  /** `strconv.Atoi(s)` on a 64-bit platform. */
  function Atoi(s: bytes): Option<int> {
    var negative := s != [] && s[0] == 45;
    var body := if s != [] && (s[0] == 43 || s[0] == 45) then s[1..] else s;
    if body == [] || !AllDigits(body) then None
    else
      var v: int := DigitsValue(body);
      if negative then (if v <= INT_LIMIT then Some(-v) else None)
      else (if v < INT_LIMIT then Some(v) else None)
  }

  lemma {:induction false} FormatUintValue(n: nat)
    ensures DigitsValue(FormatUint(n)) == n
    decreases n
  {
    if n >= 10 {
      FormatUintValue(n / 10);
      var s := FormatUint(n);
      assert s[..|s| - 1] == FormatUint(n / 10);
    } else {
      assert FormatUint(n)[..0] == [];
    }
  }

  lemma ParseFormatUint(n: uint)
    ensures ParseUint(FormatUint(n)) == Some(n)
  {
    FormatUintValue(n);
  }

  lemma AtoiFormatUint(n: nat)
    requires n < 0x8000_0000_0000_0000
    ensures Atoi(FormatUint(n)) == Some(n)
  {
    FormatUintValue(n);
    assert IsDigit(FormatUint(n)[0]);
  }

  // ------------------------------------------------------ positional notation

  function Pow10(n: nat): nat {
    if n == 0 then 1 else 10 * Pow10(n - 1)
  }

  lemma OneDigit(d: nat)
    requires d < 10
    ensures DigitsValue([(48 + d) as byte]) == d && FormatUint(d) == [(48 + d) as byte]
  {
    assert [(48 + d) as byte][..0] == [];
  }

  /** Base ten: the front of a numeral counts for ten to the number of digits behind it. */
  lemma {:induction false} DigitsConcat(a: bytes, b: bytes)
    requires AllDigits(a) && AllDigits(b)
    ensures AllDigits(a + b) && DigitsValue(a + b) == DigitsValue(a) * Pow10(|b|) + DigitsValue(b)
    decreases |b|
  {
    if b == [] {
      assert a + b == a;
    } else {
      var n := |b| - 1;
      DigitsConcat(a, b[..n]);
      assert (a + b)[..|a| + n] == a + b[..n];
      assert (a + b)[|a| + n] == b[n];
      Distribute(DigitsValue(a), Pow10(n));
    }
  }

  lemma Distribute(v: nat, p: nat)
    ensures v * (10 * p) == 10 * (v * p)
  {
  }

  /** A leading zero does not change the value. */
  lemma {:induction false} LeadingZero(s: bytes)
    requires AllDigits(s)
    ensures AllDigits([48] + s) && DigitsValue([48] + s) == DigitsValue(s)
  {
    OneDigit(0);
    DigitsConcat([48], s);
  }

  /** Printing shifts by a digit per factor of ten ... */
  lemma FormatUintShift(n: nat, d: nat)
    requires n > 0 && d < 10
    ensures FormatUint(10 * n + d) == FormatUint(n) + [(48 + d) as byte]
  {
  }

  /** ... and writes no leading zero. */
  lemma {:induction false} NoLeadingZero(n: nat)
    ensures FormatUint(n)[0] == 48 <==> n == 0
    decreases n
  {
    if n >= 10 {
      NoLeadingZero(n / 10);
    }
  }

  /** `Atoi` takes one sign and then digits only, as long as the value fits 64 bits. */
  lemma AtoiSigned(digits: bytes)
    requires AllDigits(digits) && digits != []
    ensures var v: int := DigitsValue(digits);
            && Atoi(digits) == Atoi([43] + digits) == (if v < 0x8000_0000_0000_0000 then Some(v) else None)
            && Atoi([45] + digits) == (if v <= 0x8000_0000_0000_0000 then Some(-v) else None)
  {
    assert IsDigit(digits[0]);
    assert ([43] + digits)[1..] == digits && ([45] + digits)[1..] == digits;
  }

  /** Nothing else is a number. */
  lemma AtoiUnreadable(s: bytes)
    requires s == [] || s == [43] || s == [45]
             || (exists i :: 0 <= i < |s| && !(48 <= s[i] <= 57) && (i > 0 || (s[0] != 43 && s[0] != 45)))
    ensures Atoi(s).None?
  {
    if i :| 0 <= i < |s| && !(48 <= s[i] <= 57) && (i > 0 || (s[0] != 43 && s[0] != 45)) {
      if s[0] == 43 || s[0] == 45 {
        assert s[1..][i - 1] == s[i];
      }
    }
  }

  lemma DigitsBreakFree(s: bytes)
    requires AllDigits(s)
    ensures BreakFree(s) && NUL !in s
  {
  }
}
