/** Stand-ins for the .NET text routines the filtering service relies on:
    ordinal case-insensitive comparison, `int.TryParse`, `double.TryParse`,
    `DateTime.TryParse`, `bool.TryParse` and `Enum.TryParse(..., ignoreCase: true)`.
    Each is a small, explicit grammar; the full culture-dependent grammars of
    .NET are not modelled. */
module Text {
  import opened Wrappers

  // ----- case folding -----

  /** ASCII upper-case letters folded to lower case; every other character is kept. */
  function FoldChar(c: char): char {
    if 'A' <= c <= 'Z' then (c as int - 'A' as int + 'a' as int) as char else c
  }

  function FoldCase(s: string): (r: string)
    ensures |r| == |s|
    ensures forall i | 0 <= i < |s| :: r[i] == FoldChar(s[i])
  {
    seq(|s|, i requires 0 <= i < |s| => FoldChar(s[i]))
  }

  /** `string.Equals(a, b, StringComparison.OrdinalIgnoreCase)`, restricted to ASCII folding. */
  predicate EqualsIgnoreCase(a: string, b: string) {
    FoldCase(a) == FoldCase(b)
  }

  /** Comparison ignoring case is character by character, and it is an equivalence. */
  lemma EqualsIgnoreCaseMeaning(a: string, b: string, c: string)
    ensures EqualsIgnoreCase(a, b)
            <==> |a| == |b| && forall i | 0 <= i < |a| :: FoldChar(a[i]) == FoldChar(b[i])
    ensures EqualsIgnoreCase(a, a)
    ensures EqualsIgnoreCase(a, b) ==> EqualsIgnoreCase(b, a)
    ensures EqualsIgnoreCase(a, b) && EqualsIgnoreCase(b, c) ==> EqualsIgnoreCase(a, c)
  {
    if |a| == |b| && forall i | 0 <= i < |a| :: FoldChar(a[i]) == FoldChar(b[i]) {
      assert FoldCase(a) == FoldCase(b);
    }
  }

  // ----- digits -----

  predicate IsDigit(c: char) { '0' <= c <= '9' }

  predicate AllDigits(s: string) { forall i | 0 <= i < |s| :: IsDigit(s[i]) }

  /** The value of a string of decimal digits, most significant first. */
  function DigitsValue(ds: string): nat
    requires AllDigits(ds)
  {
    if ds == [] then 0
    else DigitsValue(ds[..|ds| - 1]) * 10 + (ds[|ds| - 1] as int - '0' as int)
  }

  function Pow10(k: nat): (r: nat)
    ensures r >= 1
  {
    if k == 0 then 1 else 10 * Pow10(k - 1)
  }

  /** A leading '-' or '+' split off the rest of the string. */
  function SplitSign(s: string): (bool, string) {
    if |s| > 0 && (s[0] == '-' || s[0] == '+') then (s[0] == '-', s[1..]) else (false, s)
  }

  /** The position of the first '.' in `s`, or `|s|` when there is none. */
  function DotIndex(s: string): (k: nat)
    ensures k <= |s|
    ensures forall i | 0 <= i < k :: s[i] != '.'
    ensures k < |s| ==> s[k] == '.'
  {
    if s == [] then 0
    else if s[0] == '.' then 0
    else 1 + DotIndex(s[1..])
  }

  // ----- int.TryParse -----

  const Int32Min: int := -0x8000_0000
  const Int32Max: int := 0x7FFF_FFFF

  /** An optional sign followed by one or more decimal digits, whose value fits
      in a 32-bit signed integer. */
  function ParseInt(s: string): (r: Option<int>)
    ensures r.Some? ==> Int32Min <= r.value <= Int32Max
    ensures r.Some? ==> '.' !in s && s != []
  {
    var (negative, body) := SplitSign(s);
    if body == [] || !AllDigits(body) then None
    else
      var v: int := DigitsValue(body);
      var n := if negative then -v else v;
      if Int32Min <= n <= Int32Max then Some(n) else None
  }

  // ----- double.TryParse -----

  /** An optional sign, then digits with at most one '.', with at least one
      digit in all. The value is the exact decimal number. */
  function ParseDouble(s: string): (r: Option<real>)
    ensures r.Some? ==> exists i | 0 <= i < |s| :: IsDigit(s[i])
    ensures r.Some? ==> s[0] == '+' || s[0] == '-' || s[0] == '.' || IsDigit(s[0])
    ensures r.Some? ==> forall i | 0 < i < |s| :: IsDigit(s[i]) || s[i] == '.'
    ensures r.Some? ==> forall i, j | 0 <= i < j < |s| && s[i] == '.' :: s[j] != '.'
  {
    var (negative, body) := SplitSign(s);
    var k := DotIndex(body);
    var whole := body[..k];
    var frac := if k < |body| then body[k + 1..] else [];
    if (whole == [] && frac == []) || !AllDigits(whole) || !AllDigits(frac) then None
    else
      var m: real := DigitsValue(whole) as real + DigitsValue(frac) as real / Pow10(|frac|) as real;
      Some(if negative then -m else m)
  }

  // ----- DateTime.TryParse -----

  const TicksPerDay: int := 864_000_000_000

  predicate IsLeapYear(y: int) {
    y % 4 == 0 && (y % 100 != 0 || y % 400 == 0)
  }

  function DaysInMonth(y: int, m: int): int {
    if m == 2 then (if IsLeapYear(y) then 29 else 28)
    else if m == 4 || m == 6 || m == 9 || m == 11 then 30
    else 31
  }

  /** Days in the months of year `y` before month `m`. */
  function DaysBeforeMonth(y: int, m: nat): int
    decreases m
  {
    if m <= 1 then 0 else DaysBeforeMonth(y, m - 1) + DaysInMonth(y, m - 1)
  }

  function DaysInYear(y: int): int {
    if IsLeapYear(y) then 366 else 365
  }

  /** Days from 0001-01-01 of the proleptic Gregorian calendar to 1 January of year `y`. */
  function DaysBeforeYear(y: int): int {
    var before := y - 1;
    before * 365 + before / 4 - before / 100 + before / 400
  }

  /** A year, month and day that name a day of the calendar. */
  predicate ValidDate(y: int, m: int, d: int) {
    1 <= y && 1 <= m <= 12 && 1 <= d <= DaysInMonth(y, m)
  }

  /** Whether the date `(y1, m1, d1)` comes before the date `(y2, m2, d2)`. */
  predicate DateBefore(y1: int, m1: int, d1: int, y2: int, m2: int, d2: int) {
    y1 < y2 || (y1 == y2 && (m1 < m2 || (m1 == m2 && d1 < d2)))
  }

  /** The number of days from 0001-01-01 to day `d` of month `m` of year `y`. */
  function DayNumber(y: nat, m: nat, d: int): int {
    DaysBeforeYear(y) + DaysBeforeMonth(y, m) + d - 1
  }

  /** `DateTime.Ticks` of midnight on day `d` of month `m` of year `y`. */
  function Ticks(y: nat, m: nat, d: int): int {
    DayNumber(y, m, d) * TicksPerDay
  }

  /** A calendar date written `yyyy-MM-dd`, giving the ticks of its midnight. */
  function ParseDateTime(s: string): (r: Option<int>)
    ensures r.Some? ==> |s| == 10 && s[4] == '-' && s[7] == '-'
    ensures r.Some? ==> AllDigits(s[..4]) && AllDigits(s[5..7]) && AllDigits(s[8..])
                        && ValidDate(DigitsValue(s[..4]), DigitsValue(s[5..7]), DigitsValue(s[8..]))
                        && r.value == Ticks(DigitsValue(s[..4]), DigitsValue(s[5..7]), DigitsValue(s[8..]))
  {
    if |s| == 10 && s[4] == '-' && s[7] == '-'
       && AllDigits(s[..4]) && AllDigits(s[5..7]) && AllDigits(s[8..])
    then
      var y, m, d := DigitsValue(s[..4]), DigitsValue(s[5..7]), DigitsValue(s[8..]);
      if ValidDate(y, m, d) then Some(Ticks(y, m, d)) else None
    else None
  }

  /** A year has as many days as the gap between its first day and the next year's. */
  lemma YearStep(y: int)
    ensures DaysBeforeYear(y + 1) == DaysBeforeYear(y) + DaysInYear(y)
  {
    var b := y - 1;
    assert y / 4 - b / 4 == if y % 4 == 0 then 1 else 0;
    assert y / 100 - b / 100 == if y % 100 == 0 then 1 else 0;
    assert y / 400 - b / 400 == if y % 400 == 0 then 1 else 0;
  }

  /** The twelve months fill the year. */
  lemma MonthsFillYear(y: int)
    ensures DaysBeforeMonth(y, 13) == DaysInYear(y)
  {
    assert DaysBeforeMonth(y, 3) == 31 + DaysInMonth(y, 2);
    assert DaysBeforeMonth(y, 7) == DaysBeforeMonth(y, 3) + 122;
    assert DaysBeforeMonth(y, 13) == DaysBeforeMonth(y, 7) + 184;
  }

  /** A month ends no later than any later month begins. */
  lemma {:induction false} MonthsInOrder(y: int, m1: nat, m2: nat)
    requires 1 <= m1 < m2
    ensures DaysBeforeMonth(y, m1) + DaysInMonth(y, m1) <= DaysBeforeMonth(y, m2)
    decreases m2
  {
    if m2 > m1 + 1 {
      MonthsInOrder(y, m1, m2 - 1);
    }
  }

  /** A year ends no later than any later year begins. */
  lemma {:induction false} YearsInOrder(y1: int, y2: int)
    requires y1 < y2
    ensures DaysBeforeYear(y1) + DaysInYear(y1) <= DaysBeforeYear(y2)
    decreases y2 - y1
  {
    YearStep(y2 - 1);
    if y2 > y1 + 1 {
      YearsInOrder(y1, y2 - 1);
    }
  }

  /** A valid date lies inside its year. */
  lemma DayOfYearBounds(y: nat, m: nat, d: int)
    requires ValidDate(y, m, d)
    ensures 0 <= DaysBeforeMonth(y, m) + d - 1 < DaysInYear(y)
  {
    MonthsInOrder(y, m, 13);
    MonthsFillYear(y);
    if m > 1 {
      MonthsInOrder(y, 1, m);
    }
  }

  /** An earlier date has a smaller day number. */
  lemma EarlierDayNumber(y1: nat, m1: nat, d1: int, y2: nat, m2: nat, d2: int)
    requires ValidDate(y1, m1, d1) && ValidDate(y2, m2, d2)
    requires DateBefore(y1, m1, d1, y2, m2, d2)
    ensures DayNumber(y1, m1, d1) < DayNumber(y2, m2, d2)
  {
    DayOfYearBounds(y1, m1, d1);
    DayOfYearBounds(y2, m2, d2);
    if y1 < y2 {
      YearsInOrder(y1, y2);
    } else if m1 < m2 {
      MonthsInOrder(y1, m1, m2);
    }
  }

  /** Ticks order valid dates chronologically: one date comes before another
      exactly when its ticks are smaller. */
  lemma TicksChronological(y1: nat, m1: nat, d1: int, y2: nat, m2: nat, d2: int)
    requires ValidDate(y1, m1, d1) && ValidDate(y2, m2, d2)
    ensures DateBefore(y1, m1, d1, y2, m2, d2) <==> Ticks(y1, m1, d1) < Ticks(y2, m2, d2)
    ensures (y1, m1, d1) == (y2, m2, d2) <==> Ticks(y1, m1, d1) == Ticks(y2, m2, d2)
  {
    var n1, n2 := DayNumber(y1, m1, d1), DayNumber(y2, m2, d2);
    if DateBefore(y1, m1, d1, y2, m2, d2) {
      EarlierDayNumber(y1, m1, d1, y2, m2, d2);
      assert n1 * TicksPerDay < n2 * TicksPerDay;
    } else if DateBefore(y2, m2, d2, y1, m1, d1) {
      EarlierDayNumber(y2, m2, d2, y1, m1, d1);
      assert n2 * TicksPerDay < n1 * TicksPerDay;
    }
  }

  /** Of two parsed dates, the one written earlier in the calendar has the smaller ticks. */
  lemma ParseDateTimeChronological(s1: string, s2: string)
    requires ParseDateTime(s1).Some? && ParseDateTime(s2).Some?
    ensures ParseDateTime(s1).value < ParseDateTime(s2).value
            <==> DateBefore(DigitsValue(s1[..4]), DigitsValue(s1[5..7]), DigitsValue(s1[8..]),
                            DigitsValue(s2[..4]), DigitsValue(s2[5..7]), DigitsValue(s2[8..]))
  {
    TicksChronological(DigitsValue(s1[..4]), DigitsValue(s1[5..7]), DigitsValue(s1[8..]),
                       DigitsValue(s2[..4]), DigitsValue(s2[5..7]), DigitsValue(s2[8..]));
  }

  /** The last `w` decimal digits of `n`, with leading zeros. */
  function PadDigits(n: nat, w: nat): string
    decreases w
  {
    if w == 0 then [] else PadDigits(n / 10, w - 1) + [('0' as int + n % 10) as char]
  }

  lemma {:induction false} PadDigitsValue(n: nat, w: nat)
    requires n < Pow10(w)
    ensures |PadDigits(n, w)| == w && AllDigits(PadDigits(n, w))
    ensures DigitsValue(PadDigits(n, w)) == n
    decreases w
  {
    if w > 0 {
      PadDigitsValue(n / 10, w - 1);
      var ds := PadDigits(n, w);
      assert ds[..|ds| - 1] == PadDigits(n / 10, w - 1);
    }
  }

  /** A date written `yyyy-MM-dd`. */
  function DateString(y: nat, m: nat, d: nat): string {
    PadDigits(y, 4) + "-" + PadDigits(m, 2) + "-" + PadDigits(d, 2)
  }

  /** Every valid date of a four-digit year, written `yyyy-MM-dd`, parses
      back to the ticks of that date. */
  lemma ParseDateString(y: nat, m: nat, d: nat)
    requires ValidDate(y, m, d) && y <= 9999
    ensures ParseDateTime(DateString(y, m, d)) == Some(Ticks(y, m, d))
  {
    assert Pow10(2) == 100;
    assert Pow10(4) == 10000;
    PadDigitsValue(y, 4);
    PadDigitsValue(m, 2);
    PadDigitsValue(d, 2);
    var s := DateString(y, m, d);
    DateStringFields(PadDigits(y, 4), PadDigits(m, 2), PadDigits(d, 2));
    assert AllDigits(s[..4]) && AllDigits(s[5..7]) && AllDigits(s[8..]);
    assert DigitsValue(s[..4]) == y && DigitsValue(s[5..7]) == m && DigitsValue(s[8..]) == d;
  }

  lemma DateStringFields(ys: string, ms: string, ds: string)
    requires |ys| == 4 && |ms| == 2 && |ds| == 2
    ensures var s := ys + "-" + ms + "-" + ds;
            |s| == 10 && s[4] == '-' && s[7] == '-' && s[..4] == ys && s[5..7] == ms && s[8..] == ds
  {
  }

  // ----- bool.TryParse -----

  /** "true" or "false" in any letter case; null and everything else fail. */
  function ParseBool(s: Option<string>): (r: Option<bool>)
    ensures r.Some? ==> s.Some? && EqualsIgnoreCase(s.value, if r.value then "true" else "false")
    ensures s.Some? && EqualsIgnoreCase(s.value, "true") ==> r == Some(true)
    ensures s.Some? && EqualsIgnoreCase(s.value, "false") ==> r == Some(false)
  {
    if s.None? then None
    else if FoldCase(s.value) == "true" then Some(true)
    else if FoldCase(s.value) == "false" then Some(false)
    else None
  }

  // ----- Enum.TryParse(type, value, ignoreCase: true) -----

  /** The index of the first member name at or after `from` equal to `s`
      ignoring case. */
  function FindName(names: seq<string>, s: string, from: nat): (r: Option<nat>)
    requires from <= |names|
    ensures r.Some? ==> from <= r.value < |names| && EqualsIgnoreCase(names[r.value], s)
    ensures r.Some? ==> forall j | from <= j < r.value :: !EqualsIgnoreCase(names[j], s)
    ensures r.None? ==> forall j | from <= j < |names| :: !EqualsIgnoreCase(names[j], s)
    decreases |names| - from
  {
    if from == |names| then None
    else if EqualsIgnoreCase(names[from], s) then Some(from)
    else FindName(names, s, from + 1)
  }

  /** The member (by position) of an enumeration with member names `names`
      whose name equals `s` ignoring case; null fails. */
  function ParseEnum(names: seq<string>, s: Option<string>): (r: Option<nat>)
    ensures r.Some? <==> s.Some? && exists j | 0 <= j < |names| :: EqualsIgnoreCase(names[j], s.value)
    ensures r.Some? ==> r.value < |names| && EqualsIgnoreCase(names[r.value], s.value)
    ensures r.Some? ==> forall j | 0 <= j < r.value :: !EqualsIgnoreCase(names[j], s.value)
  {
    if s.None? then None else FindName(names, s.value, 0)
  }

  // ----- properties of the stand-ins -----

  /** The decimal digits of `n`, most significant first, without leading zeros. */
  function Digits(n: nat): string
    decreases n
  {
    if n < 10 then [('0' as int + n) as char]
    else Digits(n / 10) + [('0' as int + n % 10) as char]
  }

  /** `n.ToString()` for an integer: a '-' for negative numbers, then its digits. */
  function DecimalString(n: int): string {
    if n < 0 then "-" + Digits(-n) else Digits(n)
  }

  lemma {:induction false} DigitsValueOfDigits(n: nat)
    ensures Digits(n) != [] && AllDigits(Digits(n))
    ensures DigitsValue(Digits(n)) == n
    decreases n
  {
    if n >= 10 {
      DigitsValueOfDigits(n / 10);
      var ds := Digits(n);
      assert ds[..|ds| - 1] == Digits(n / 10);
    }
  }

  /** Every 32-bit integer, written in decimal, parses back to itself. */
  lemma ParseIntOfDecimalString(n: int)
    requires Int32Min <= n <= Int32Max
    ensures ParseInt(DecimalString(n)) == Some(n)
  {
    var s := DecimalString(n);
    if n < 0 {
      DigitsValueOfDigits(-n);
      assert s[0] == '-' && s[1..] == Digits(-n);
      assert SplitSign(s) == (true, Digits(-n));
    } else {
      DigitsValueOfDigits(n);
      assert IsDigit(s[0]);
      assert SplitSign(s) == (false, s);
    }
  }

  /** A value that parses as an int is not the null sentinel. */
  lemma ParseIntNotNull(s: string)
    requires ParseInt(s).Some?
    ensures !EqualsIgnoreCase(s, "null")
  {
  }

  /** A value that parses as an int parses as the same number as a double. */
  lemma ParseDoubleOfInt(s: string)
    requires ParseInt(s).Some?
    ensures ParseDouble(s) == Some(ParseInt(s).value as real)
  {
    var (negative, body) := SplitSign(s);
    assert '.' !in body by {
      if |s| > 0 && (s[0] == '-' || s[0] == '+') {
        forall i | 0 <= i < |body| ensures body[i] != '.' { assert body[i] == s[i + 1]; }
      }
    }
    assert DotIndex(body) == |body|;
    assert body[..|body|] == body;
  }

  /** Two values equal ignoring case name the same enumeration member. */
  lemma {:induction false} FindNameIgnoresCase(names: seq<string>, a: string, b: string, from: nat)
    requires from <= |names|
    requires EqualsIgnoreCase(a, b)
    ensures FindName(names, a, from) == FindName(names, b, from)
    decreases |names| - from
  {
    if from < |names| {
      FindNameIgnoresCase(names, a, b, from + 1);
    }
  }
}
