/**
 * Wall-clock times as the booking code writes and reads them: a minute count
 * rendered as a zero-padded "HH:MM" string, and such a string read back with
 * `split(':').map(Number)` followed by `h * 60 + m`.
 */
module Clock {
  import opened Wrappers

  predicate IsDigit(c: char) {
    '0' <= c <= '9'
  }

  predicate AllDigits(s: string) {
    forall i :: 0 <= i < |s| ==> IsDigit(s[i])
  }

  function DigitChar(d: nat): (c: char)
    requires d < 10
    ensures IsDigit(c)
  {
    (48 + d) as char
  }

  function DigitValue(c: char): (d: nat)
    requires IsDigit(c)
    ensures d < 10 && DigitChar(d) == c
  {
    c as int - 48
  }

  /** The decimal digits of `n` without leading zeros: `n.toString()` for a non-negative integer. */
  function Decimal(n: nat): (s: string)
    ensures 1 <= |s| && AllDigits(s)
    ensures |s| == 1 <==> n < 10
    ensures n >= 10 ==> s[0] != '0'
  {
    if n < 10 then [DigitChar(n)] else Decimal(n / 10) + [DigitChar(n % 10)]
  }

  /** The number a string of decimal digits denotes (leading zeros allowed). */
  function DigitsValue(s: string): nat
    requires AllDigits(s)
  {
    if s == [] then 0 else 10 * DigitsValue(s[..|s| - 1]) + DigitValue(s[|s| - 1])
  }

  lemma {:induction false} DecimalValue(n: nat)
    ensures DigitsValue(Decimal(n)) == n
  {
    if n >= 10 {
      var s := Decimal(n);
      assert s[..|s| - 1] == Decimal(n / 10);
      DecimalValue(n / 10);
    }
  }

  /** A run of digits followed by a non-digit splits a text in only one way. */
  lemma DigitRunSplit(d1: string, rest1: string, d2: string, rest2: string)
    requires AllDigits(d1) && |rest1| > 0 && !IsDigit(rest1[0])
    requires AllDigits(d2) && |rest2| > 0 && !IsDigit(rest2[0])
    requires d1 + rest1 == d2 + rest2
    ensures d1 == d2 && rest1 == rest2
  {
    var s := d1 + rest1;
    assert !IsDigit(s[|d1|]) && !IsDigit(s[|d2|]);
    assert forall i :: 0 <= i < |d1| ==> IsDigit(s[i]);
    assert forall i :: 0 <= i < |d2| ==> IsDigit(s[i]);
    assert |d1| == |d2|;
    assert d1 == s[..|d1|] && d2 == (d2 + rest2)[..|d2|];
    assert rest1 == s[|d1|..] && rest2 == (d2 + rest2)[|d2|..];
  }

  /** Decimal is injective: distinct numbers never print the same. */
  lemma DecimalInjective(m: nat, n: nat)
    requires Decimal(m) == Decimal(n)
    ensures m == n
  {
    DecimalValue(m);
    DecimalValue(n);
  }

  lemma {:induction false} LeadingZero(s: string)
    requires AllDigits(s)
    ensures AllDigits("0" + s) && DigitsValue("0" + s) == DigitsValue(s)
  {
    var t := "0" + s;
    if s == [] {
      assert t[..|t| - 1] == [];
    } else {
      assert t[..|t| - 1] == "0" + s[..|s| - 1];
      LeadingZero(s[..|s| - 1]);
    }
  }

  /** `s.padStart(2, '0')`: left-pad with zeros to length two; longer strings are unchanged. */
  function PadStart2(s: string): (r: string)
    ensures |r| == if |s| < 2 then 2 else |s|
    ensures r[|r| - |s|..] == s
    ensures forall i :: 0 <= i < |r| - |s| ==> r[i] == '0'
  {
    if |s| >= 2 then s else if |s| == 1 then "0" + s else "00"
  }

  /** The "HH:MM" string of a minute count: zero-padded hours `minutes / 60`, a colon, zero-padded `minutes % 60`. */
  function Format(minutes: nat): string
  {
    PadStart2(Decimal(minutes / 60)) + ":" + PadStart2(Decimal(minutes % 60))
  }

  /** JavaScript's `Number(s)` on a string: the empty string is 0, a digit string is its value, anything else is NaN (None). */
  function NumberOf(s: string): (r: Option<nat>)
    ensures r.Some? <==> AllDigits(s)
    ensures r.Some? ==> r.value == DigitsValue(s)
  {
    if AllDigits(s) then Some(DigitsValue(s)) else None
  }

  /** JavaScript's `s.split(sep)`: the pieces between occurrences of `sep`, one more piece than there are separators. */
  function Split(s: string, sep: char): (parts: seq<string>)
    ensures |parts| >= 1
    ensures forall i :: 0 <= i < |parts| ==> sep !in parts[i]
  {
    if s == [] then [""]
    else
      assert s == [s[0]] + s[1..];
      var rest := Split(s[1..], sep);
      if s[0] == sep then [""] + rest
      else
        var parts := [[s[0]] + rest[0]] + rest[1..];
        assert forall i :: 1 <= i < |parts| ==> parts[i] == rest[i];
        parts
  }

  /** There is one more piece than there are separators. */
  lemma {:induction false} SplitCount(s: string, sep: char)
    ensures |Split(s, sep)| == multiset(s)[sep] + 1
  {
    if s != [] {
      assert s == [s[0]] + s[1..];
      SplitCount(s[1..], sep);
    }
  }

  /** `parts.join(sep)`: the pieces with one separator between each two. */
  function Join(parts: seq<string>, sep: char): string
    requires |parts| >= 1
  {
    if |parts| == 1 then parts[0] else parts[0] + [sep] + Join(parts[1..], sep)
  }

  /** Splitting loses nothing: joining the pieces with the separator gives back the text. */
  lemma {:induction false} SplitJoin(s: string, sep: char)
    ensures Join(Split(s, sep), sep) == s
  {
    if s != [] {
      var rest := Split(s[1..], sep);
      SplitJoin(s[1..], sep);
      if s[0] == sep {
        assert Split(s, sep)[1..] == rest;
      } else {
        var parts := Split(s, sep);
        assert parts[0] == [s[0]] + rest[0];
        assert parts[1..] == rest[1..];
        if |rest| > 1 {
          assert Join(rest, sep) == rest[0] + [sep] + Join(rest[1..], sep);
        }
      }
      assert s == [s[0]] + s[1..];
    }
  }

  /**
   * The minute count of an "HH:MM" string: the first two ':'-separated pieces read
   * with `Number` and combined as `h * 60 + m`. None stands for NaN: fewer than two
   * pieces, or a piece that is not a digit string.
   */
  function ParseClock(s: string): Option<nat>
  {
    ClockOfPieces(Split(s, ':'))
  }

  /** `h * 60 + m` of the first two pieces, each read with `Number`; None (NaN) when either is missing or not a number. */
  function ClockOfPieces(pieces: seq<string>): Option<nat>
  {
    if |pieces| < 2 then None
    else
      var h, m := NumberOf(pieces[0]), NumberOf(pieces[1]);
      if h.Some? && m.Some? then Some(h.value * 60 + m.value) else None
  }

  lemma {:induction false} SplitWithoutSeparator(s: string, sep: char)
    requires sep !in s
    ensures Split(s, sep) == [s]
  {
    if s != [] {
      SplitWithoutSeparator(s[1..], sep);
      assert s[0] != sep;
      assert [s[0]] + s[1..] == s;
    }
  }

  lemma {:induction false} SplitAtSeparator(a: string, b: string, sep: char)
    requires sep !in a && sep !in b
    ensures Split(a + [sep] + b, sep) == [a, b]
  {
    var s := a + [sep] + b;
    if a == [] {
      assert s[1..] == b;
      SplitWithoutSeparator(b, sep);
    } else {
      assert s[1..] == a[1..] + [sep] + b;
      SplitAtSeparator(a[1..], b, sep);
      assert [s[0]] + a[1..] == a;
    }
  }

  lemma PaddedDecimalValue(n: nat)
    ensures AllDigits(PadStart2(Decimal(n)))
    ensures DigitsValue(PadStart2(Decimal(n))) == n
  {
    var s := Decimal(n);
    DecimalValue(n);
    if |s| == 1 {
      LeadingZero(s);
    }
  }

  lemma DigitsHaveNoColon(s: string)
    requires AllDigits(s)
    ensures ':' !in s
  {
  }

  lemma SplitClock(hh: string, mm: string)
    requires AllDigits(hh) && AllDigits(mm)
    ensures Split(hh + ":" + mm, ':') == [hh, mm]
    ensures ParseClock(hh + ":" + mm) == ClockOfPieces([hh, mm])
  {
    DigitsHaveNoColon(hh);
    DigitsHaveNoColon(mm);
    assert hh + ":" + mm == hh + [':'] + mm;
    SplitAtSeparator(hh, mm, ':');
  }

  /** Two digit strings joined by ':' read back as hours * 60 + minutes. */
  lemma ParseJoined(hh: string, mm: string)
    requires AllDigits(hh) && AllDigits(mm)
    ensures ParseClock(hh + ":" + mm) == Some(DigitsValue(hh) * 60 + DigitsValue(mm))
  {
    SplitClock(hh, mm);
    PiecesValue(hh, mm);
  }

  lemma PiecesValue(hh: string, mm: string)
    requires AllDigits(hh) && AllDigits(mm)
    ensures ClockOfPieces([hh, mm]) == Some(DigitsValue(hh) * 60 + DigitsValue(mm))
  {
  }

  /** Reading back a formatted time gives the minute count it was formatted from. */
  lemma ParseFormat(minutes: nat)
    ensures ParseClock(Format(minutes)) == Some(minutes)
  {
    PaddedDecimalValue(minutes / 60);
    PaddedDecimalValue(minutes % 60);
    ParseJoined(PadStart2(Decimal(minutes / 60)), PadStart2(Decimal(minutes % 60)));
  }

  /** Two different minute counts never format to the same string. */
  lemma FormatInjective(m: nat, n: nat)
    requires Format(m) == Format(n)
    ensures m == n
  {
    ParseFormat(m);
    ParseFormat(n);
  }

  lemma {:induction false} PaddedBelowHundred(n: nat)
    requires n < 100
    ensures |PadStart2(Decimal(n))| == 2
  {
    if n >= 10 {
      assert Decimal(n) == Decimal(n / 10) + [DigitChar(n % 10)];
    }
  }

  lemma JoinedShape(hh: string, mm: string)
    requires |hh| == 2 && |mm| == 2
    ensures |hh + ":" + mm| == 5 && (hh + ":" + mm)[2] == ':'
    ensures (hh + ":" + mm)[..2] == hh && (hh + ":" + mm)[3..] == mm
  {
  }

  /** Up to 99:59 the format is exactly five characters: two hour digits, ':', two minute digits. */
  lemma FormatShape(minutes: nat)
    requires minutes < 6000
    ensures |Format(minutes)| == 5 && Format(minutes)[2] == ':'
    ensures AllDigits(Format(minutes)[..2]) && AllDigits(Format(minutes)[3..])
    ensures DigitsValue(Format(minutes)[..2]) == minutes / 60
    ensures DigitsValue(Format(minutes)[3..]) == minutes % 60
  {
    var hh, mm := PadStart2(Decimal(minutes / 60)), PadStart2(Decimal(minutes % 60));
    PaddedBelowHundred(minutes / 60);
    PaddedBelowHundred(minutes % 60);
    PaddedDecimalValue(minutes / 60);
    PaddedDecimalValue(minutes % 60);
    JoinedShape(hh, mm);
  }
}
