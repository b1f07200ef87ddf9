/** The `YYYY-MM-DD` keys of the app (the extended calendar-date
    form of ISO 8601:2004, section 4.1.2.2) and the two string tests it applies
    to them: `<`/`>=` between keys when finding a pattern group, and
    `startsWith(`${year}-${pad2(month)}`)` when selecting a month's shifts.

    The model keys its maps by `Date` and uses chronological order and
    `(year, month)` equality instead; the lemmas here show that for
    four-digit years this is the same thing, and that a target year without
    four digits selects no key at all. */
module DateKey {
  import opened Calendar

  function DigitChar(n: int): char
    requires 0 <= n <= 9
  {
    ('0' as int + n) as char
  }

  function Pow10(n: nat): (p: nat)
    ensures n >= 1 ==> p >= 10
  {
    if n == 0 then 1 else 10 * Pow10(n - 1)
  }

  /** The last `width` decimal digits of `x`, most significant first. */
  function Digits(x: nat, width: nat): (s: string)
    ensures |s| == width
  {
    if width == 0 then "" else Digits(x / 10, width - 1) + [DigitChar(x % 10)]
  }

  /** The key under which a day is stored: `toISOString().split('T')[0]`
      and date-fns `format(d, 'yyyy-MM-dd')` agree on it for years 0..9999. */
  function Format(d: Date): (s: string)
    requires 0 <= d.year <= 9999
  {
    Digits(d.year, 4) + (['-'] + (Digits(d.month, 2) + (['-'] + Digits(d.day, 2))))
  }

  /** JavaScript `a < b` on strings: lexicographic by code unit. */
  predicate LexLess(a: string, b: string) {
    if |a| == 0 then |b| > 0
    else if |b| == 0 then false
    else if a[0] < b[0] then true
    else if a[0] > b[0] then false
    else LexLess(a[1..], b[1..])
  }

  predicate StartsWith(s: string, prefix: string) {
    |prefix| <= |s| && s[..|prefix|] == prefix
  }

  /** Decimal digits of a non-negative integer, without leading zeros. */
  function NatToString(n: nat): (s: string)
    ensures |s| >= 1
  {
    if n < 10 then [DigitChar(n)] else NatToString(n / 10) + [DigitChar(n % 10)]
  }

  /** JavaScript `String(n)` for an integer `n`. */
  function IntToString(n: int): string {
    if n < 0 then "-" + NatToString(-n) else NatToString(n)
  }

  /** JavaScript `s.padStart(width, c)` for a one-character pad. */
  function PadStart(s: string, width: nat, c: char): (r: string)
    ensures |r| == if |s| < width then width else |s|
    ensures r[|r| - |s|..] == s
    decreases width - |s|
  {
    if |s| < width then PadStart([c] + s, width, c) else s
  }

  /** `${year}-${String(month).padStart(2, '0')}` as built by the monthly
      salary calculation (src/utils/salaryCalculator.ts:96). */
  function TargetMonth(year: int, month: int): string {
    IntToString(year) + (['-'] + PadStart(IntToString(month), 2, '0'))
  }

  // ---------------------------------------------------------------------------
  // Lemmas

  lemma LexLessCons(c1: char, c2: char, a: string, b: string)
    ensures LexLess([c1] + a, [c2] + b) <==> c1 < c2 || (c1 == c2 && LexLess(a, b))
  {
    assert ([c1] + a)[1..] == a;
    assert ([c2] + b)[1..] == b;
  }

  lemma LexLessIrreflexive(a: string)
    ensures !LexLess(a, a)
  {
  }

  /** Comparing fixed-width digit strings compares the numbers. */
  lemma {:induction false} DigitsCompare(x: nat, y: nat, width: nat, a: string, b: string)
    requires x < Pow10(width) && y < Pow10(width)
    ensures LexLess(Digits(x, width) + a, Digits(y, width) + b)
            <==> x < y || (x == y && LexLess(a, b))
  {
    if width == 0 {
      assert Digits(x, width) + a == a;
      assert Digits(y, width) + b == b;
    } else {
      var cx, cy := DigitChar(x % 10), DigitChar(y % 10);
      assert Digits(x, width) + a == Digits(x / 10, width - 1) + ([cx] + a);
      assert Digits(y, width) + b == Digits(y / 10, width - 1) + ([cy] + b);
      DigitsCompare(x / 10, y / 10, width - 1, [cx] + a, [cy] + b);
      LexLessCons(cx, cy, a, b);
    }
  }

  /** Equal fixed-width digit strings denote equal numbers. */
  lemma {:induction false} DigitsInjective(x: nat, y: nat, width: nat)
    requires x < Pow10(width) && y < Pow10(width)
    requires Digits(x, width) == Digits(y, width)
    ensures x == y
  {
    DigitsCompare(x, y, width, "", "");
    DigitsCompare(y, x, width, "", "");
  }

  /** For a number with exactly `width` digits, `String(n)` is its
      fixed-width digit string. */
  lemma {:induction false} NatToStringHasWidth(n: nat, width: nat)
    requires 1 <= width
    requires Pow10(width - 1) <= n < Pow10(width)
    ensures NatToString(n) == Digits(n, width)
  {
    if width == 1 {
      assert Digits(n / 10, 0) == "";
    } else {
      NatToStringHasWidth(n / 10, width - 1);
    }
  }

  /** For four-digit years and one- or two-digit months the month prefix is
      the first seven characters of every key in that month. */
  lemma TargetMonthShape(year: int, month: int)
    requires 1000 <= year <= 9999 && 0 <= month <= 99
    ensures TargetMonth(year, month) == Digits(year, 4) + (['-'] + Digits(month, 2))
  {
    Pow10Values();
    NatToStringHasWidth(year, 4);
    PaddedMonth(month);
  }

  /** `String(month).padStart(2, '0')` is the two-digit month. */
  lemma PaddedMonth(month: int)
    requires 0 <= month <= 99
    ensures PadStart(IntToString(month), 2, '0') == Digits(month, 2)
  {
    Pow10Values();
    if month == 0 {
      assert IntToString(month) == "0";
      assert PadStart("0", 2, '0') == "00";
      assert Digits(0, 2) == Digits(0, 1) + "0";
    } else if month < 10 {
      NatToStringHasWidth(month, 1);
      assert IntToString(month) == [DigitChar(month)];
      assert PadStart(IntToString(month), 2, '0') == ['0'] + [DigitChar(month)];
      assert Digits(month / 10, 1) == Digits(0, 0) + [DigitChar(0)];
    } else {
      NatToStringHasWidth(month, 2);
    }
  }

  /** Comparing two keys as strings is comparing the days chronologically. */
  lemma KeyOrderIsChronological(a: Date, b: Date)
    requires 0 <= a.year <= 9999 && 0 <= b.year <= 9999
    ensures LexLess(Format(a), Format(b)) <==> Before(a, b)
  {
    Pow10Values();
    OrdinalOrder(a, b);
    var da, db := ['-'] + Digits(a.day, 2), ['-'] + Digits(b.day, 2);
    DigitsCompare(a.day, b.day, 2, "", "");
    assert Digits(a.day, 2) + "" == Digits(a.day, 2);
    assert Digits(b.day, 2) + "" == Digits(b.day, 2);
    LexLessCons('-', '-', Digits(a.day, 2), Digits(b.day, 2));
    DigitsCompare(a.month, b.month, 2, da, db);
    var ma, mb := ['-'] + (Digits(a.month, 2) + da), ['-'] + (Digits(b.month, 2) + db);
    LexLessCons('-', '-', Digits(a.month, 2) + da, Digits(b.month, 2) + db);
    DigitsCompare(a.year, b.year, 4, ma, mb);
  }

  /** Distinct days have distinct keys, so keying by `Date` loses nothing. */
  lemma FormatInjective(a: Date, b: Date)
    requires 0 <= a.year <= 9999 && 0 <= b.year <= 9999
    requires Format(a) == Format(b)
    ensures a == b
  {
    KeyOrderIsChronological(a, b);
    KeyOrderIsChronological(b, a);
    LexLessIrreflexive(Format(a));
    OrdinalInjective(a, b);
  }

  /** The month filter of the salary calculation for a four-digit target year:
      a key starts with the month prefix exactly when the day lies in that
      year and month. */
  lemma MonthPrefixMatchesYearMonth(d: Date, year: int, month: int)
    requires 0 <= d.year <= 9999
    requires 1000 <= year <= 9999 && 0 <= month <= 99
    ensures StartsWith(Format(d), TargetMonth(year, month)) <==> d.year == year && d.month == month
  {
    TargetMonthShape(year, month);
    FormatPrefix(d);
    Pow10Values();
    var own := Digits(d.year, 4) + (['-'] + Digits(d.month, 2));
    var prefix := Digits(year, 4) + (['-'] + Digits(month, 2));
    if own == prefix {
      SplitConcat(Digits(d.year, 4), ['-'] + Digits(d.month, 2), Digits(year, 4), ['-'] + Digits(month, 2));
      DigitsInjective(d.year, year, 4);
      SplitConcat(['-'], Digits(d.month, 2), ['-'], Digits(month, 2));
      DigitsInjective(d.month, month, 2);
    }
  }

  /** A target year that is not four digits long, or a month that is not one
      or two digits long, puts a character where every key has a different
      kind of character (a dash against a digit, or a digit against a dash). */
  lemma PrefixMissesOtherTargets(d: Date, year: int, month: int)
    requires 0 <= d.year <= 9999
    requires !(1000 <= year <= 9999 && 0 <= month <= 99)
    ensures !StartsWith(Format(d), TargetMonth(year, month))
  {
    if 1000 <= year <= 9999 {
      OddMonthMisses(d, year, month);
    } else {
      OddYearMisses(d, year, month);
    }
  }

  lemma OddYearMisses(d: Date, year: int, month: int)
    requires 0 <= d.year <= 9999
    requires !(1000 <= year <= 9999)
    ensures !StartsWith(Format(d), TargetMonth(year, month))
  {
    var key, y, rest := Format(d), IntToString(year), ['-'] + PadStart(IntToString(month), 2, '0');
    assert TargetMonth(year, month) == y + rest;
    FormatShape(d);
    if year < 0 {
      DiffersAt(key, y + rest, 0);
    } else if year < 1000 {
      ShortYear(year);
      DashTooEarly(key, y, rest);
    } else {
      LongYear(year);
      DigitWhereDash(key, y, rest, 4);
    }
  }

  lemma OddMonthMisses(d: Date, year: int, month: int)
    requires 0 <= d.year <= 9999
    requires 1000 <= year <= 9999 && !(0 <= month <= 99)
    ensures !StartsWith(Format(d), TargetMonth(year, month))
  {
    var key, y, pad := Format(d), IntToString(year), PadStart(IntToString(month), 2, '0');
    assert TargetMonth(year, month) == y + (['-'] + pad);
    FormatShape(d);
    FourDigitYear(year);
    if month < 0 {
      NegativeMonth(month);
      MonthMisses(key, y, pad, 5);
    } else {
      LongMonth(month);
      MonthMisses(key, y, pad, 7);
    }
  }

  lemma ShortYear(year: int)
    requires 0 <= year < 1000
    ensures |IntToString(year)| < 4
  {
    Pow10Values();
    NatToStringShape(year, 3);
  }

  lemma LongYear(year: int)
    requires year > 9999
    ensures |IntToString(year)| > 4 && IsDigitChar(IntToString(year)[4])
  {
    Pow10Values();
    NatToStringShape(year, 4);
  }

  lemma FourDigitYear(year: int)
    requires 1000 <= year <= 9999
    ensures |IntToString(year)| == 4
  {
    Pow10Values();
    NatToStringHasWidth(year, 4);
  }

  lemma NegativeMonth(month: int)
    requires month < 0
    ensures PadStart(IntToString(month), 2, '0')[0] == '-'
  {
    assert |IntToString(month)| >= 2;
  }

  lemma LongMonth(month: int)
    requires month > 99
    ensures |PadStart(IntToString(month), 2, '0')| > 2
    ensures IsDigitChar(PadStart(IntToString(month), 2, '0')[2])
  {
    Pow10Values();
    NatToStringShape(month, 2);
  }

  /** A prefix whose dash comes before position 4 misses every key. */
  lemma DashTooEarly(key: string, y: string, rest: string)
    requires |key| == 10 && forall i :: 0 <= i < 4 ==> IsDigitChar(key[i])
    requires |y| < 4 && |rest| > 0 && rest[0] == '-'
    ensures !StartsWith(key, y + rest)
  {
    assert (y + rest)[|y|] == '-';
    DiffersAt(key, y + rest, |y|);
  }

  /** A prefix with a digit where the key has a dash misses the key. */
  lemma DigitWhereDash(key: string, y: string, rest: string, k: nat)
    requires k < |key| && key[k] == '-'
    requires k < |y| && IsDigitChar(y[k])
    ensures !StartsWith(key, y + rest)
  {
    assert (y + rest)[k] == y[k];
    DiffersAt(key, y + rest, k);
  }

  /** After a four-character year and a dash, the month part disagrees with
      the key at position `k`. */
  lemma MonthMisses(key: string, y: string, pad: string, k: nat)
    requires |y| == 4 && 5 <= k < |key| && k - 5 < |pad|
    requires key[k] != pad[k - 5]
    ensures !StartsWith(key, y + (['-'] + pad))
  {
    assert (y + (['-'] + pad))[k] == pad[k - 5];
    DiffersAt(key, y + (['-'] + pad), k);
  }

  /** The month filter of the salary calculation for every target: a key of
      a four-digit year starts with `${year}-${pad2(month)}` exactly when the
      target year has four digits and the day lies in that year and month. */
  lemma MonthPrefixTest(d: Date, year: int, month: int)
    requires 0 <= d.year <= 9999
    ensures StartsWith(Format(d), TargetMonth(year, month))
            <==> 1000 <= year <= 9999 && d.year == year && d.month == month
  {
    if 1000 <= year <= 9999 && 0 <= month <= 99 {
      MonthPrefixMatchesYearMonth(d, year, month);
    } else {
      PrefixMissesOtherTargets(d, year, month);
    }
  }

  predicate IsDigitChar(c: char) {
    '0' <= c <= '9'
  }

  lemma {:induction false} DigitsAreDigits(x: nat, width: nat)
    ensures forall i :: 0 <= i < width ==> IsDigitChar(Digits(x, width)[i])
  {
    if width > 0 {
      DigitsAreDigits(x / 10, width - 1);
    }
  }

  /** `String(n)` is all digits, and it is at most `k` characters long
      exactly when `n` is below `10^k`. */
  lemma {:induction false} NatToStringShape(n: nat, k: nat)
    requires 1 <= k
    ensures forall i :: 0 <= i < |NatToString(n)| ==> IsDigitChar(NatToString(n)[i])
    ensures n < Pow10(k) <==> |NatToString(n)| <= k
  {
    if n >= 10 {
      assert NatToString(n) == NatToString(n / 10) + [DigitChar(n % 10)];
      if k == 1 {
        NatToStringShape(n / 10, 1);
        assert Pow10(1) == 10;
      } else {
        NatToStringShape(n / 10, k - 1);
        var p := Pow10(k - 1);
        assert Pow10(k) == 10 * p;
        assert n < 10 * p <==> n / 10 < p;
      }
    }
  }

  /** Where a key has digits and where it has dashes. */
  lemma FormatShape(d: Date)
    requires 0 <= d.year <= 9999
    ensures |Format(d)| == 10 && Format(d)[4] == '-' && Format(d)[7] == '-'
    ensures forall i :: 0 <= i < 4 ==> IsDigitChar(Format(d)[i])
    ensures IsDigitChar(Format(d)[5])
  {
    DigitsAreDigits(d.year, 4);
    DigitsAreDigits(d.month, 2);
    var k := Format(d);
    assert k == Digits(d.year, 4) + (['-'] + (Digits(d.month, 2) + (['-'] + Digits(d.day, 2))));
    assert k[5] == Digits(d.month, 2)[0];
  }

  lemma DiffersAt(s: string, p: string, k: nat)
    requires k < |s| && k < |p| && s[k] != p[k]
    ensures !StartsWith(s, p)
  {
  }

  lemma FormatPrefix(d: Date)
    requires 0 <= d.year <= 9999
    ensures |Format(d)| == 10
    ensures Format(d)[..7] == Digits(d.year, 4) + (['-'] + Digits(d.month, 2))
  {
    var tail := ['-'] + Digits(d.day, 2);
    assert Format(d) == (Digits(d.year, 4) + (['-'] + Digits(d.month, 2))) + tail;
  }

  lemma SplitConcat(a: string, b: string, c: string, d: string)
    requires |a| == |c| && a + b == c + d
    ensures a == c && b == d
  {
    assert a == (a + b)[..|a|];
    assert c == (c + d)[..|c|];
    assert b == (a + b)[|a|..];
    assert d == (c + d)[|c|..];
  }

  lemma Pow10Values()
    ensures Pow10(1) == 10 && Pow10(2) == 100 && Pow10(3) == 1000 && Pow10(4) == 10000
  {
  }

  /** A concrete storage key. */
  lemma FormatExample()
    ensures Format(CivilDate(2024, 1, 6)) == "2024-01-06"
  {
  }

  /** Concrete month prefixes: a one-digit month is zero-padded. */
  lemma TargetMonthExamples()
    ensures TargetMonth(2024, 1) == "2024-01"
    ensures TargetMonth(2024, 11) == "2024-11"
  {
    assert IntToString(2024) == "2024";
    assert PadStart(IntToString(1), 2, '0') == "01";
    assert PadStart(IntToString(11), 2, '0') == "11";
  }
}
