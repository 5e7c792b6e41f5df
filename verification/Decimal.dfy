/** Degrees written as decimals with seven places, one way of printing the
    coordinates of a polygon file that its reader takes back unchanged. */
module Decimal {
  import opened Lines
  import opened Numerals
  import opened PolyFile
  import opened Text

  const UNIT: nat := 1_000_0000

  function Abs(n: int): nat {
    if n < 0 then -n else n
  }

  /** The last k digits of f. */
  function Fixed(f: nat, k: nat): (s: string)
    ensures |s| == k && forall i :: 0 <= i < |s| ==> IsDigit(s[i])
  {
    if k == 0 then "" else Fixed(f / 10, k - 1) + ['0' + (f % 10) as char]
  }

  function Show(n: int): string {
    if n < 0 then "-" + ShowUnsigned(-n) else ShowUnsigned(n)
  }

  function ShowUnsigned(n: nat): string {
    Digits(n / UNIT) + ("." + Fixed(n % UNIT, 7))
  }

  function Pow10(k: nat): nat {
    if k == 0 then 1 else 10 * Pow10(k - 1)
  }

  /** The first seven digits after the point, as units of the seventh place. */
  function Fraction(d: string): nat
    requires forall i :: 0 <= i < |d| ==> IsDigit(d[i])
  {
    if |d| >= 7 then Value(d[..7]) else Value(d) * Pow10(7 - |d|)
  }

  /** What follows the whole part: perhaps a point and more digits. */
  function ReadPlaces(whole: nat, rest: string): Scan {
    if "." <= rest then
      var d := LeadingDigits(rest[1..]);
      Scan(true, whole * UNIT + Fraction(d), rest[1..][|d|..])
    else Scan(true, whole * UNIT, rest)
  }

  /** A number without a sign. */
  function ReadUnsigned(s: string): Scan {
    var whole := LeadingDigits(s);
    if whole == "" then Scan(false, 0, s) else ReadPlaces(Value(whole), s[|whole|..])
  }

  function ReadSigned(t: string): Scan {
    if "-" <= t then Negated(ReadUnsigned(t[1..])) else ReadUnsigned(t)
  }

  function Negated(r: Scan): Scan {
    r.(value := -r.value)
  }

  function Read(s: string): Scan {
    ReadSigned(TrimLeft(s))
  }

  lemma {:induction false} ValueOfFixed(f: nat, k: nat)
    requires f < Pow10(k)
    ensures Value(Fixed(f, k)) == f
  {
    if k > 0 {
      ValueOfFixed(f / 10, k - 1);
      assert Fixed(f, k)[..k - 1] == Fixed(f / 10, k - 1);
    }
  }

  lemma PlacesReadBack(whole: nat, f: nat, rest: string)
    requires f < UNIT && (rest == "" || rest[0] == ' ')
    ensures ReadPlaces(whole, "." + (Fixed(f, 7) + rest)) == Scan(true, whole * UNIT + f, rest)
  {
    var places := Fixed(f, 7) + rest;
    assert ("." + places)[1..] == places;
    LeadingDigitsStop(Fixed(f, 7), rest);
    assert places[7..] == rest;
    assert Pow10(7) == UNIT;
    ValueOfFixed(f, 7);
    assert Fixed(f, 7)[..7] == Fixed(f, 7);
  }

  lemma WholeReadsBack(whole: nat, tail: string)
    requires tail == "" || !IsDigit(tail[0])
    ensures ReadUnsigned(Digits(whole) + tail) == ReadPlaces(whole, tail)
  {
    LeadingDigitsStop(Digits(whole), tail);
    ValueOfDigits(whole);
    assert (Digits(whole) + tail)[|Digits(whole)|..] == tail;
  }

  lemma TrimBlank(t: string)
    requires t != "" && !IsSpace(t[0])
    ensures TrimLeft(" " + t) == t
  {
    assert (" " + t)[1..] == t;
    assert TrimLeft(t) == t;
  }

  lemma ReadsUnsigned(u: string)
    requires u != "" && IsDigit(u[0])
    ensures Read(" " + u) == ReadUnsigned(u)
  {
    TrimBlank(u);
  }

  lemma ReadsNegative(u: string)
    ensures Read(" " + ("-" + u)) == Negated(ReadUnsigned(u))
  {
    TrimBlank("-" + u);
    assert ("-" + u)[1..] == u;
  }

  lemma Regroup(a: string, b: string, c: string)
    ensures a + b + c == a + (b + c)
  {
  }

  lemma Points(f: nat, rest: string)
    ensures "." + Fixed(f, 7) + rest == "." + (Fixed(f, 7) + rest)
    ensures ("." + Fixed(f, 7) + rest)[0] == '.'
  {
    Regroup(".", Fixed(f, 7), rest);
  }

  lemma ShownUnsigned(m: nat, rest: string)
    requires rest == "" || rest[0] == ' '
    ensures ReadUnsigned(ShowUnsigned(m) + rest) == Scan(true, m, rest)
  {
    var tail := "." + Fixed(m % UNIT, 7);
    Points(m % UNIT, rest);
    PlacesReadBack(m / UNIT, m % UNIT, rest);
    WholeReadsBack(m / UNIT, tail + rest);
    Regroup(Digits(m / UNIT), tail, rest);
  }

  lemma ShownStarts(m: nat)
    ensures ShowUnsigned(m) != "" && IsDigit(ShowUnsigned(m)[0])
  {
  }

  lemma NegativeThen(u: string, rest: string)
    ensures Read(" " + ("-" + u) + rest) == Negated(ReadUnsigned(u + rest))
  {
    ReadsNegative(u + rest);
    Regroup(" ", "-" + u, rest);
    Regroup("-", u, rest);
  }

  lemma UnsignedThen(u: string, rest: string)
    requires u != "" && IsDigit(u[0])
    ensures Read(" " + u + rest) == ReadUnsigned(u + rest)
  {
    ReadsUnsigned(u + rest);
    Regroup(" ", u, rest);
  }

  lemma NegativeReadsBack(m: int, rest: string)
    requires 0 < m && (rest == "" || rest[0] == ' ')
    ensures Read(" " + ("-" + ShowUnsigned(m)) + rest) == Scan(true, -m, rest)
  {
    ShownUnsigned(m, rest);
    NegativeThen(ShowUnsigned(m), rest);
  }

  lemma PositiveReadsBack(m: nat, rest: string)
    requires rest == "" || rest[0] == ' '
    ensures Read(" " + ShowUnsigned(m) + rest) == Scan(true, m, rest)
  {
    ShownUnsigned(m, rest);
    ShownStarts(m);
    UnsignedThen(ShowUnsigned(m), rest);
  }

  lemma DecimalReadsBack(n: int, shown: string, rest: string)
    requires shown == Show(n) && (rest == "" || rest[0] == ' ')
    ensures Read(" " + shown + rest) == Scan(true, n, rest)
  {
    if n < 0 {
      assert shown == "-" + ShowUnsigned(-n);
      NegativeReadsBack(-n, rest);
    } else {
      assert shown == ShowUnsigned(n);
      PositiveReadsBack(n, rest);
    }
  }

  /** Decimals are a number format that reads back. */
  lemma DecimalsReadBack()
    ensures ReadsBack(Show, Read)
  {
    forall n ensures IsLine(Show(n)) && Show(n) != "" && !IsSpace(Show(n)[0]) {
      assert ShowUnsigned(Abs(n))[0] == Digits(Abs(n) / UNIT)[0];
    }
    forall n, rest: string | rest == "" || rest[0] == ' '
      ensures Read(" " + Show(n) + rest) == Scan(true, n, rest)
    {
      DecimalReadsBack(n, Show(n), rest);
    }
  }
}
