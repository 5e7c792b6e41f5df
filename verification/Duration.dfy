/** Printing an elapsed time as days, hours, minutes, seconds and milliseconds,
    and reading such a text back. */
module Duration {
  import opened Numerals
  import opened Wrappers

  /** The division and remainder of C++: towards zero. */
  function Quotient(a: int, b: int): int
    requires b > 0
  {
    if a >= 0 then a / b else -((-a) / b)
  }

  function Modulo(a: int, b: int): int
    requires b > 0
  {
    a - b * Quotient(a, b)
  }

  // ---------- the counts ----------

  datatype Counts = Counts(days: nat, hours: nat, mins: nat, secs: nat, msecs: nat)

  function Worth(c: Counts): nat {
    c.days * 86400000 + c.hours * 3600000 + c.mins * 60000 + c.secs * 1000 + c.msecs
  }

  function CountsOf(ms: nat): Counts {
    var s := ms / 1000;
    var m := s / 60;
    var h := m / 60;
    Counts(h / 24, h % 24, m % 60, s % 60, ms % 1000)
  }

  lemma DivisionIsUnique(q: nat, r: nat, b: nat)
    requires r < b && (b == 24 || b == 60 || b == 1000)
    ensures (q * b + r) / b == q && (q * b + r) % b == r
  {
    if b == 24 {
      assert (q * 24 + r) / 24 == q;
    } else if b == 60 {
      assert (q * 60 + r) / 60 == q;
    } else {
      assert (q * 1000 + r) / 1000 == q;
    }
  }

  /** Every unit but the days is below the next larger one, and together they are
      worth the time they were taken from: no other counts are. */
  lemma CountsAreTheMixedRadixDigits(ms: nat, c: Counts)
    ensures c == CountsOf(ms) <==> c.hours < 24 && c.mins < 60 && c.secs < 60 && c.msecs < 1000 && Worth(c) == ms
  {
    if c.hours < 24 && c.mins < 60 && c.secs < 60 && c.msecs < 1000 && Worth(c) == ms {
      var h := c.days * 24 + c.hours;
      var m := h * 60 + c.mins;
      var s := m * 60 + c.secs;
      DivisionIsUnique(s, c.msecs, 1000);
      DivisionIsUnique(m, c.secs, 60);
      DivisionIsUnique(h, c.mins, 60);
      DivisionIsUnique(c.days, c.hours, 24);
    }
  }

  // ---------- the text ----------

  /** A unit, a blank and what follows. */
  function Unit(n: nat, suffix: string, tail: string): string {
    Digits(n) + (suffix + " " + tail)
  }

  function FromMsecs(c: Counts): string { Digits(c.msecs) + "ms" }

  function FromSecs(c: Counts): string { Unit(c.secs, "s", FromMsecs(c)) }

  function FromMins(c: Counts): string { Unit(c.mins, "m", FromSecs(c)) }

  function FromHours(c: Counts): string { Unit(c.hours, "h", FromMins(c)) }

  function FromDays(c: Counts): string { Unit(c.days, "d", FromHours(c)) }

  /** All units from the first nonzero one on. */
  function Render(c: Counts): string {
    if c.days > 0 then FromDays(c)
    else if c.hours > 0 then FromHours(c)
    else if c.mins > 0 then FromMins(c)
    else if c.secs > 0 then FromSecs(c)
    else if c.msecs > 0 then FromMsecs(c)
    else ""
  }

  // ---------- the text, token by token ----------

  const SUFFIXES: seq<string> := ["d", "h", "m", "s", "ms"]

  function CountList(c: Counts): seq<nat> {
    [c.days, c.hours, c.mins, c.secs, c.msecs]
  }

  /** Tokens with a blank between any two. */
  function Blanked(tokens: seq<string>): string {
    if tokens == [] then ""
    else if |tokens| == 1 then tokens[0]
    else tokens[0] + " " + Blanked(tokens[1..])
  }

  ghost predicate FirstNonzero(counts: seq<nat>, k: nat) {
    k < |counts| && counts[k] > 0 && forall j :: 0 <= j < k ==> counts[j] == 0
  }

  /** A text made of one token for each count from the k-th on: the number, then the
      suffix of its unit. */
  ghost predicate TokensFrom(out: string, counts: seq<nat>, k: nat)
    requires k <= |counts| == |SUFFIXES|
  {
    out == Blanked(seq(|counts| - k, j requires 0 <= j < |counts| - k => Digits(counts[k + j]) + SUFFIXES[k + j]))
  }

  lemma Prepend(n: nat, suffix: string, tokens: seq<string>)
    requires tokens != []
    ensures Blanked([Digits(n) + suffix] + tokens) == Unit(n, suffix, Blanked(tokens))
  {
    assert ([Digits(n) + suffix] + tokens)[1..] == tokens;
    assert (Digits(n) + suffix) + " " + Blanked(tokens) == Digits(n) + (suffix + " " + Blanked(tokens));
  }

  lemma SmallUnits(c: Counts)
    ensures FromMsecs(c) == Blanked([Digits(c.msecs) + "ms"])
    ensures FromSecs(c) == Blanked([Digits(c.secs) + "s", Digits(c.msecs) + "ms"])
    ensures FromMins(c) == Blanked([Digits(c.mins) + "m", Digits(c.secs) + "s", Digits(c.msecs) + "ms"])
  {
    var ms, s, m := Digits(c.msecs) + "ms", Digits(c.secs) + "s", Digits(c.mins) + "m";
    Prepend(c.secs, "s", [ms]);
    Prepend(c.mins, "m", [s, ms]);
    assert [s] + [ms] == [s, ms] && [m] + [s, ms] == [m, s, ms];
  }

  lemma LargeUnits(c: Counts)
    ensures var ms, s, m := Digits(c.msecs) + "ms", Digits(c.secs) + "s", Digits(c.mins) + "m";
            var h, d := Digits(c.hours) + "h", Digits(c.days) + "d";
            FromHours(c) == Blanked([h, m, s, ms]) && FromDays(c) == Blanked([d, h, m, s, ms])
  {
    var ms, s, m := Digits(c.msecs) + "ms", Digits(c.secs) + "s", Digits(c.mins) + "m";
    var h, d := Digits(c.hours) + "h", Digits(c.days) + "d";
    SmallUnits(c);
    Prepend(c.hours, "h", [m, s, ms]);
    Prepend(c.days, "d", [h, m, s, ms]);
    assert [h] + [m, s, ms] == [h, m, s, ms] && [d] + [h, m, s, ms] == [d, h, m, s, ms];
  }

  /** The text has a token for every unit from the first nonzero one on, those of
      which there are none included. */
  lemma RenderIsTokens(c: Counts, k: nat)
    requires FirstNonzero(CountList(c), k)
    ensures TokensFrom(Render(c), CountList(c), k)
  {
    var cs := CountList(c);
    assert cs[0] == c.days && cs[1] == c.hours && cs[2] == c.mins && cs[3] == c.secs && cs[4] == c.msecs;
    var tokens := seq(5 - k, j requires 0 <= j < 5 - k => Digits(cs[k + j]) + SUFFIXES[k + j]);
    SmallUnits(c);
    LargeUnits(c);
    if k == 0 { assert tokens == [Digits(c.days) + "d", Digits(c.hours) + "h", Digits(c.mins) + "m", Digits(c.secs) + "s", Digits(c.msecs) + "ms"]; }
    if k == 1 { assert tokens == [Digits(c.hours) + "h", Digits(c.mins) + "m", Digits(c.secs) + "s", Digits(c.msecs) + "ms"]; }
    if k == 2 { assert tokens == [Digits(c.mins) + "m", Digits(c.secs) + "s", Digits(c.msecs) + "ms"]; }
    if k == 3 { assert tokens == [Digits(c.secs) + "s", Digits(c.msecs) + "ms"]; }
    if k == 4 { assert tokens == [Digits(c.msecs) + "ms"]; }
  }

  /** Days, and the rests in hours, minutes, seconds and milliseconds. */
  function MixedRadix(ms: nat): seq<nat> {
    [ms / 86400000, ms / 3600000 % 24, ms / 60000 % 60, ms / 1000 % 60, ms % 1000]
  }

  lemma MixedRadixIs(ms: nat)
    ensures MixedRadix(ms) == CountList(CountsOf(ms))
  {
    var s := ms / 1000;
    assert s / 60 == ms / 60000 && s / 60 / 60 == ms / 3600000 && s / 60 / 60 / 24 == ms / 86400000;
  }

  lemma SomeUnit(ms: nat) returns (k: nat)
    requires ms > 0
    ensures FirstNonzero(CountList(CountsOf(ms)), k) && MixedRadix(ms) == CountList(CountsOf(ms))
  {
    var c := CountsOf(ms);
    MixedRadixIs(ms);
    CountsAreTheMixedRadixDigits(ms, c);
    k := if c.days > 0 then 0 else if c.hours > 0 then 1 else if c.mins > 0 then 2 else if c.secs > 0 then 3 else 4;
  }

  /** Of the time's days, hours, minutes, seconds and milliseconds, all from the
      first nonzero one on. */
  ghost predicate IsPrinted(out: string, ms: nat) {
    exists k :: FirstNonzero(MixedRadix(ms), k) && TokensFrom(out, MixedRadix(ms), k)
  }

  lemma RenderIsPrinted(ms: nat)
    requires ms > 0
    ensures IsPrinted(Render(CountsOf(ms)), ms)
  {
    var k := SomeUnit(ms);
    RenderIsTokens(CountsOf(ms), k);
  }

  // ---------- reading it back ----------

  datatype UnitRead = NoUnit | UnitRead(weight: nat, rest: string)

  function SkipBlank(s: string): (r: string)
    ensures |r| <= |s|
  {
    if " " <= s then s[1..] else s
  }

  /** The unit a text starts with, and what follows it and a blank. */
  function ReadUnit(s: string): (u: UnitRead)
    ensures u.UnitRead? ==> |u.rest| < |s|
  {
    if "ms" <= s then UnitRead(1, SkipBlank(s[2..]))
    else if "d" <= s then UnitRead(86400000, SkipBlank(s[1..]))
    else if "h" <= s then UnitRead(3600000, SkipBlank(s[1..]))
    else if "m" <= s then UnitRead(60000, SkipBlank(s[1..]))
    else if "s" <= s then UnitRead(1000, SkipBlank(s[1..]))
    else NoUnit
  }

  /** Adds up numbers with units, in any order. */
  function ReadDuration(s: string): Option<nat>
    decreases |s|
  {
    if s == "" then Some(0)
    else if LeadingDigits(s) == "" then None
    else
      var d := LeadingDigits(s);
      var u := ReadUnit(s[|d|..]);
      if u.NoUnit? then None else Plus(Times(Value(d), u.weight), ReadDuration(u.rest))
  }

  function Times(n: nat, weight: nat): nat {
    n * weight
  }

  function Plus(n: nat, rest: Option<nat>): Option<nat> {
    if rest.None? then None else Some(n + rest.value)
  }

  lemma ReadPart(n: nat, rest: string)
    requires ReadUnit(rest).UnitRead? && !IsDigit(rest[0])
    ensures ReadDuration(Digits(n) + rest) == Plus(Times(n, ReadUnit(rest).weight), ReadDuration(ReadUnit(rest).rest))
  {
    var s := Digits(n) + rest;
    LeadingDigitsStop(Digits(n), rest);
    ValueOfDigits(n);
    assert s[|Digits(n)|..] == rest;
  }

  lemma UnitReadsBack(n: nat, suffix: string, weight: nat, tail: string)
    requires (suffix, weight) == ("d", 86400000) || (suffix, weight) == ("h", 3600000)
             || (suffix, weight) == ("m", 60000) || (suffix, weight) == ("s", 1000)
    ensures ReadDuration(Unit(n, suffix, tail)) == Plus(Times(n, weight), ReadDuration(tail))
  {
    var rest := suffix + " " + tail;
    assert rest[0] == suffix[0] && rest[1] == ' ';
    assert rest[1..] == " " + tail && rest[1..][1..] == tail;
    assert ReadUnit(rest) == UnitRead(weight, tail);
    ReadPart(n, rest);
  }

  lemma MsecsReadBack(n: nat)
    ensures ReadDuration(Digits(n) + "ms") == Some(n)
  {
    assert ReadUnit("ms") == UnitRead(1, "");
    ReadPart(n, "ms");
  }

  /** A reader that takes units one by one. */
  ghost predicate ReadsUnits(read: string -> Option<nat>) {
    && (forall n: nat {:trigger read(Digits(n) + "ms")} :: read(Digits(n) + "ms") == Some(n))
    && (forall n: nat, tail :: read(Unit(n, "s", tail)) == Plus(n * 1000, read(tail)))
    && (forall n: nat, tail :: read(Unit(n, "m", tail)) == Plus(n * 60000, read(tail)))
    && (forall n: nat, tail :: read(Unit(n, "h", tail)) == Plus(n * 3600000, read(tail)))
    && (forall n: nat, tail :: read(Unit(n, "d", tail)) == Plus(n * 86400000, read(tail)))
  }

  lemma DurationReadsUnits()
    ensures ReadsUnits(ReadDuration)
  {
    forall n: nat ensures ReadDuration(Digits(n) + "ms") == Some(n) { MsecsReadBack(n); }
    forall n: nat, tail ensures ReadDuration(Unit(n, "s", tail)) == Plus(n * 1000, ReadDuration(tail)) {
      UnitReadsBack(n, "s", 1000, tail);
    }
    forall n: nat, tail ensures ReadDuration(Unit(n, "m", tail)) == Plus(n * 60000, ReadDuration(tail)) {
      UnitReadsBack(n, "m", 60000, tail);
    }
    forall n: nat, tail ensures ReadDuration(Unit(n, "h", tail)) == Plus(n * 3600000, ReadDuration(tail)) {
      UnitReadsBack(n, "h", 3600000, tail);
    }
    forall n: nat, tail ensures ReadDuration(Unit(n, "d", tail)) == Plus(n * 86400000, ReadDuration(tail)) {
      UnitReadsBack(n, "d", 86400000, tail);
    }
  }

  lemma MinsRead(c: Counts, read: string -> Option<nat>)
    requires ReadsUnits(read)
    ensures read(FromMsecs(c)) == Some(c.msecs)
    ensures read(FromSecs(c)) == Some(c.secs * 1000 + c.msecs)
    ensures read(FromMins(c)) == Some(c.mins * 60000 + c.secs * 1000 + c.msecs)
  {
    assert read(FromSecs(c)) == Plus(c.secs * 1000, read(FromMsecs(c)));
    assert read(FromMins(c)) == Plus(c.mins * 60000, read(FromSecs(c)));
  }

  lemma DaysRead(c: Counts, read: string -> Option<nat>)
    requires ReadsUnits(read)
    ensures read(FromHours(c)) == Some(c.hours * 3600000 + c.mins * 60000 + c.secs * 1000 + c.msecs)
    ensures read(FromDays(c)) == Some(Worth(c))
  {
    MinsRead(c, read);
    assert read(FromHours(c)) == Plus(c.hours * 3600000, read(FromMins(c)));
    assert read(FromDays(c)) == Plus(c.days * 86400000, read(FromHours(c)));
  }

  lemma RenderIsOneOf(c: Counts, read: string -> Option<nat>)
    requires read("") == Some(0)
    requires read(FromMsecs(c)) == Some(c.msecs)
    requires read(FromSecs(c)) == Some(c.secs * 1000 + c.msecs)
    requires read(FromMins(c)) == Some(c.mins * 60000 + c.secs * 1000 + c.msecs)
    requires read(FromHours(c)) == Some(c.hours * 3600000 + c.mins * 60000 + c.secs * 1000 + c.msecs)
    requires read(FromDays(c)) == Some(Worth(c))
    ensures read(Render(c)) == Some(Worth(c))
  {
  }

  /** Whatever the counts, such a reader reads their text as what they are worth
      together. */
  lemma CountsReadBack(c: Counts, read: string -> Option<nat>)
    requires ReadsUnits(read) && read("") == Some(0)
    ensures read(Render(c)) == Some(Worth(c))
  {
    MinsRead(c, read);
    DaysRead(c, read);
    RenderIsOneOf(c, read);
  }

  lemma RenderStartsNonzero(c: Counts)
    ensures Worth(c) > 0 ==> Render(c) != "" && Render(c)[0] != '0'
  {
  }

  /** A printed time reads back as itself, to the millisecond, and never starts
      with a unit of which there is none. */
  lemma RenderReadsBack(ms: nat)
    ensures ReadDuration(Render(CountsOf(ms))) == Some(ms)
    ensures ms > 0 ==> Render(CountsOf(ms)) != "" && Render(CountsOf(ms))[0] != '0'
  {
    var c := CountsOf(ms);
    CountsAreTheMixedRadixDigits(ms, c);
    DurationReadsUnits();
    CountsReadBack(c, ReadDuration);
    RenderStartsNonzero(c);
  }

  // ---------- the printing ----------

  /** Prints nothing at all for zero and for negative times. */
  method PrintDuration(elapsed: int) returns (out: string)
    ensures out == if elapsed < 0 then "" else Render(CountsOf(elapsed))
    ensures elapsed <= 0 ==> out == ""
    ensures elapsed > 0 ==> IsPrinted(out, elapsed)
    ensures ReadDuration(out) == Some(elapsed) <==> elapsed >= 0
  {
    var diff := elapsed;
    var msecs := Modulo(diff, 1000);
    diff := Quotient(diff, 1000);
    ghost var inSeconds := diff;
    var secs := Modulo(diff, 60);
    diff := Quotient(diff, 60);
    ghost var inMinutes := diff;
    var mins := Modulo(diff, 60);
    diff := Quotient(diff, 60);
    ghost var inHours := diff;
    var hours := Modulo(diff, 24);
    diff := Quotient(diff, 24);
    var days := diff;
    TowardsZero(elapsed, 1000);
    TowardsZero(inSeconds, 60);
    TowardsZero(inMinutes, 60);
    TowardsZero(inHours, 24);
    out := PrintCounts(days, hours, mins, secs, msecs);
    TextTells(elapsed, out);
  }

  lemma TextTells(elapsed: int, out: string)
    requires out == if elapsed < 0 then "" else Render(CountsOf(elapsed))
    ensures elapsed <= 0 ==> out == ""
    ensures elapsed > 0 ==> IsPrinted(out, elapsed)
    ensures ReadDuration(out) == Some(elapsed) <==> elapsed >= 0
  {
    if elapsed > 0 {
      RenderIsPrinted(elapsed);
      RenderReadsBack(elapsed);
    }
  }

  /** The text for the five counts. */
  method PrintCounts(days: int, hours: int, mins: int, secs: int, msecs: int) returns (out: string)
    requires (days >= 0 && hours >= 0 && mins >= 0 && secs >= 0 && msecs >= 0)
             || (days <= 0 && hours <= 0 && mins <= 0 && secs <= 0 && msecs <= 0)
    ensures out == if days >= 0 && hours >= 0 && mins >= 0 && secs >= 0 && msecs >= 0
                   then Render(Counts(days, hours, mins, secs, msecs)) else ""
  {
    ghost var c := Counts(Positive(days), Positive(hours), Positive(mins), Positive(secs), Positive(msecs));
    out := "";
    var printedEarlier := false;
    out, printedEarlier := PrintUnit(out, printedEarlier, days, "d", FromHours(c));
    assert "" + FromDays(c) == FromDays(c);
    out, printedEarlier := PrintUnit(out, printedEarlier, hours, "h", FromMins(c));
    assert "" + FromHours(c) == FromHours(c);
    out, printedEarlier := PrintUnit(out, printedEarlier, mins, "m", FromSecs(c));
    assert "" + FromMins(c) == FromMins(c);
    out, printedEarlier := PrintUnit(out, printedEarlier, secs, "s", FromMsecs(c));
    assert "" + FromSecs(c) == FromSecs(c);
    if printedEarlier || msecs >= 1 {
      out := out + (Digits(msecs) + "ms");
      assert "" + FromMsecs(c) == FromMsecs(c);
    }
  }

  function Positive(x: int): nat {
    if x < 0 then 0 else x
  }

  /** One of the four blocks that print a unit followed by a blank. */
  method PrintUnit(before: string, printedBefore: bool, count: int, suffix: string, ghost tail: string)
    returns (out: string, printedEarlier: bool)
    requires printedBefore ==> count >= 0
    ensures printedEarlier == (printedBefore || count >= 1)
    ensures if printedEarlier then out + tail == before + Unit(count, suffix, tail) else out == before
  {
    out, printedEarlier := before, printedBefore;
    if printedEarlier || count >= 1 {
      printedEarlier := true;
      out := out + Digits(count) + suffix + " ";
      assert out + tail == before + (Digits(count) + (suffix + " " + tail));
    }
  }

  lemma TowardsZero(a: int, b: int)
    requires b == 24 || b == 60 || b == 1000
    ensures a >= 0 ==> Quotient(a, b) == a / b >= 0 && Modulo(a, b) == a % b >= 0
    ensures a <= 0 ==> Quotient(a, b) <= 0 && Modulo(a, b) <= 0
  {
    if b == 24 {
      assert Modulo(a, 24) == a - 24 * Quotient(a, 24);
    } else if b == 60 {
      assert Modulo(a, 60) == a - 60 * Quotient(a, 60);
    } else {
      assert Modulo(a, 1000) == a - 1000 * Quotient(a, 1000);
    }
  }
}
