/** Base-10, 64-bit `strconv.ParseInt` and `strconv.ParseUint`, the parsers
    the integer scans of `Params` rely on, with a reference reading of a
    digit string and the formatter that inverts them. */
module Decimal {

  const MaxUint64: nat := 0xFFFF_FFFF_FFFF_FFFF
  const MaxInt64: int := 0x7FFF_FFFF_FFFF_FFFF
  const MinInt64: int := -0x8000_0000_0000_0000

  /** The two failures strconv reports: `ErrSyntax` and `ErrRange`. */
  datatype NumError = ErrSyntax | ErrRange

  datatype Parsed = Ok(n: int) | Fail(err: NumError)

  predicate IsDigit(c: char) { '0' <= c <= '9' }

  predicate AllDigits(s: string) { forall i :: 0 <= i < |s| ==> IsDigit(s[i]) }

  function DigitValue(c: char): (d: nat)
    requires IsDigit(c)
    ensures d < 10
  {
    c as int - '0' as int
  }

  function DigitChar(d: nat): (c: char)
    requires d < 10
    ensures IsDigit(c) && DigitValue(c) == d
  {
    ('0' as int + d) as char
  }

  /** Reference reading of a digit string: positional notation, the last
      digit being the units. */
  function Value(s: string): nat
    requires AllDigits(s)
  {
    if s == [] then 0 else Value(s[..|s| - 1]) * 10 + DigitValue(s[|s| - 1])
  }

  /** strconv's digit loop: digits are consumed left to right, a non-digit is
      a syntax error, and a range error is reported as soon as the value read
      so far exceeds `max` (even if a non-digit follows). */
  function ScanDigits(s: string, acc: nat, max: nat): (r: Parsed)
    requires acc <= max
    ensures r.Ok? ==> acc <= r.n <= max
  {
    if s == [] then Ok(acc)
    else if !IsDigit(s[0]) then Fail(ErrSyntax)
    else
      var n := acc * 10 + DigitValue(s[0]);
      if n > max then Fail(ErrRange) else ScanDigits(s[1..], n, max)
  }

  /** `strconv.ParseUint(s, 10, 64)`: no sign, no prefix, no underscores. */
  function ParseUint(s: string): (r: Parsed)
    ensures r.Ok? ==> 0 <= r.n <= MaxUint64
  {
    if s == [] then Fail(ErrSyntax) else ScanDigits(s, 0, MaxUint64)
  }

  /** The digits of `s` once one leading '+' or '-' is dropped. */
  function Unsigned(s: string): string
  {
    if s != [] && (s[0] == '+' || s[0] == '-') then s[1..] else s
  }

  /** `strconv.ParseInt(s, 10, 64)`: an optional sign, then the unsigned
      parse; a range error of the unsigned parse stays a range error, and the
      magnitude is then checked against the signed 64-bit bounds. */
  function ParseInt(s: string): (r: Parsed)
    ensures r.Ok? ==> MinInt64 <= r.n <= MaxInt64
  {
    if s == [] then Fail(ErrSyntax)
    else
      var neg := s[0] == '-';
      match ParseUint(Unsigned(s))
      case Fail(e) => Fail(e)
      case Ok(u) =>
        if !neg && u >= 0x8000_0000_0000_0000 then Fail(ErrRange)
        else if neg && u > 0x8000_0000_0000_0000 then Fail(ErrRange)
        else Ok(if neg then -u else u)
  }

  /** The text of the `*strconv.NumError` for parsing `s` with the function
      named `fn` (the quoting of `s` does not escape anything here). */
  function ErrorText(fn: string, s: string, e: NumError): string
  {
    "strconv." + fn + ": parsing \"" + s + "\": "
      + (match e case ErrSyntax => "invalid syntax" case ErrRange => "value out of range")
  }

  /** `strconv.FormatUint(n, 10)`. */
  function FormatNat(n: nat): string
  {
    if n < 10 then [DigitChar(n)] else FormatNat(n / 10) + [DigitChar(n % 10)]
  }

  /** `strconv.Itoa(i)`. */
  function FormatInt(i: int): string
  {
    if i < 0 then "-" + FormatNat(-i) else FormatNat(i)
  }

  /** Appending digits never makes the value smaller. */
  lemma {:induction false} ValueMonotone(q: string, t: string)
    requires AllDigits(q) && AllDigits(t)
    ensures AllDigits(q + t) && Value(q) <= Value(q + t)
  {
    assert forall i :: 0 <= i < |q + t| ==> (q + t)[i] == if i < |q| then q[i] else t[i - |q|];
    if t != [] {
      var t' := t[..|t| - 1];
      assert (q + t)[..|q + t| - 1] == q + t';
      ValueMonotone(q, t');
    } else {
      assert q + t == q;
    }
  }

  /** The digit loop agrees with the reference reading: started on the value
      of a prefix `p`, it succeeds exactly when the rest is all digits and the
      value of the whole stays within `max`, and then yields that value. */
  lemma {:induction false} ScanDigitsCorrect(p: string, s: string, max: nat)
    requires AllDigits(p) && Value(p) <= max
    ensures ScanDigits(s, Value(p), max).Ok? <==> AllDigits(s) && Value(p + s) <= max
    ensures ScanDigits(s, Value(p), max).Ok? ==> ScanDigits(s, Value(p), max).n == Value(p + s)
    decreases s
  {
    if s == [] {
      assert p + s == p;
    } else if !IsDigit(s[0]) {
    } else {
      var q := p + [s[0]];
      assert q[..|q| - 1] == p;
      assert AllDigits(q);
      assert Value(q) == Value(p) * 10 + DigitValue(s[0]);
      assert p + s == q + s[1..];
      if Value(q) > max {
        if AllDigits(s) {
          ValueMonotone(q, s[1..]);
        }
      } else {
        ScanDigitsCorrect(q, s[1..], max);
      }
    }
  }

  /** `ParseUint` accepts exactly the non-empty digit strings whose value
      fits in 64 bits, and returns that value. */
  lemma ParseUintCorrect(s: string)
    ensures ParseUint(s).Ok? <==> s != [] && AllDigits(s) && Value(s) <= MaxUint64
    ensures ParseUint(s).Ok? ==> ParseUint(s).n == Value(s)
  {
    if s != [] {
      assert [] + s == s;
      ScanDigitsCorrect([], s, MaxUint64);
    }
  }

  /** `ParseInt` accepts exactly an optional sign followed by a non-empty digit
      string whose signed value fits in 64 bits, and returns that value. */
  lemma ParseIntCorrect(s: string)
    ensures ParseInt(s).Ok? <==>
      s != [] && Unsigned(s) != [] && AllDigits(Unsigned(s)) &&
      MinInt64 <= (if s[0] == '-' then -(Value(Unsigned(s)) as int) else Value(Unsigned(s))) <= MaxInt64
    ensures ParseInt(s).Ok? ==>
      ParseInt(s).n == (if s[0] == '-' then -(Value(Unsigned(s)) as int) else Value(Unsigned(s)))
  {
    if s != [] {
      ParseUintCorrect(Unsigned(s));
    }
  }

  lemma {:induction false} FormatNatValue(n: nat)
    ensures FormatNat(n) != [] && AllDigits(FormatNat(n)) && Value(FormatNat(n)) == n
  {
    if n < 10 {
      assert FormatNat(n)[..0] == [];
    } else {
      var hi := FormatNat(n / 10);
      FormatNatValue(n / 10);
      var s := hi + [DigitChar(n % 10)];
      assert s[..|s| - 1] == hi;
    }
  }

  /** Parsing undoes formatting on the whole unsigned 64-bit range. */
  lemma ParseUintFormat(n: nat)
    requires n <= MaxUint64
    ensures ParseUint(FormatNat(n)) == Ok(n)
  {
    FormatNatValue(n);
    ParseUintCorrect(FormatNat(n));
  }

  /** Parsing undoes formatting on the whole signed 64-bit range. */
  lemma ParseIntFormat(i: int)
    requires MinInt64 <= i <= MaxInt64
    ensures ParseInt(FormatInt(i)) == Ok(i)
  {
    var s := FormatInt(i);
    if i < 0 {
      FormatNatValue(-i);
      assert s[0] == '-' && Unsigned(s) == FormatNat(-i);
    } else {
      FormatNatValue(i);
      assert FormatNat(i)[0] != '-' && FormatNat(i)[0] != '+';
      assert Unsigned(s) == s;
    }
    ParseIntCorrect(s);
  }

  /** "42" and "+42" read as 42 and "-7" as -7. */
  lemma SamplesAccepted()
    ensures ParseInt("42") == Ok(42) && ParseInt("+42") == Ok(42) && ParseInt("-7") == Ok(-7)
  {
    ParseIntCorrect("42");
    ParseIntCorrect("+42");
    ParseIntCorrect("-7");
    assert Unsigned("+42") == "42";
    assert Unsigned("-7") == "7";
    assert "42"[..1] == "4";
    assert "4"[..0] == "";
  }

  /** An empty string, a lone sign and letters are syntax errors, and the
      unsigned parser refuses a leading sign. */
  lemma SamplesRefused()
    ensures ParseInt("") == Fail(ErrSyntax) && ParseInt("-") == Fail(ErrSyntax)
    ensures ParseInt("abc") == Fail(ErrSyntax) && ParseUint("+7") == Fail(ErrSyntax)
  {
  }
}
