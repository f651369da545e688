/** Document and period labels, built by string interpolation from numbers. */
module Numbers {

  function Digits(n: nat): (s: string)
    ensures s != "" && AllDigits(s)
  {
    if n < 10 then [DigitChar(n)] else Digits(n / 10) + [DigitChar(n % 10)]
  }

  function DigitChar(d: nat): char
    requires d < 10
  {
    "0123456789"[d]
  }

  predicate AllDigits(s: string) {
    forall i :: 0 <= i < |s| ==> '0' <= s[i] <= '9'
  }

  /** `String(n)` */
  function Decimal(n: int): string {
    if n < 0 then "-" + Digits(-n) else Digits(n)
  }

  /** `s.padStart(width, '0')` */
  function PadStart(s: string, width: nat): string
    decreases width - |s|
  {
    if width <= |s| then s else PadStart("0" + s, width)
  }

  /** `${prefix}-${year}-${String(n).padStart(4, '0')}` */
  function EntryNumber(prefix: string, year: int, n: nat): string {
    prefix + "-" + Decimal(year) + "-" + PadStart(Digits(n), 4)
  }

  /** `date.toISOString().slice(0, 7)` for an instant in the given month. From the year 10000 on the
      ISO form is `+010000-01-...` and the slice loses the month. */
  function IsoMonth(month: int): (s: string)
    ensures |s| == 7
  {
    var year := month / 12;
    var isoYear :=
      if 0 <= year <= 9999 then PadStart(Digits(year), 4)
      else if year < 0 then "-" + PadStart(Digits(-year), 6)
      else "+" + PadStart(Digits(year), 6);
    PadStartLength(Digits(month % 12 + 1), 2);
    PadStartLength(Digits(if year < 0 then -year else year), 4);
    PadStartLength(Digits(if year < 0 then -year else year), 6);
    (isoYear + "-" + PadStart(Digits(month % 12 + 1), 2))[..7]
  }

  /** `DEP-${code}-${date.toISOString().slice(0, 7)}` */
  function DepreciationNumber(code: string, month: int): string {
    "DEP-" + code + "-" + IsoMonth(month)
  }

  /** `Jan 2026` */
  function MonthName(month: int): string {
    Abbreviation(month % 12) + " " + Decimal(month / 12)
  }

  function Abbreviation(m: nat): (s: string)
    requires m < 12
    ensures |s| == 3
  {
    match m
    case 0 => "Jan" case 1 => "Feb" case 2 => "Mar" case 3 => "Apr" case 4 => "May" case 5 => "Jun"
    case 6 => "Jul" case 7 => "Aug" case 8 => "Sep" case 9 => "Oct" case 10 => "Nov" case 11 => "Dec"
  }

  // ---- reading labels back ----

  /** The number a string of digits denotes. */
  ghost function Value(s: string): int {
    if s == "" then 0 else 10 * Value(s[..|s| - 1]) + (s[|s| - 1] as int - '0' as int)
  }

  lemma {:induction false} DigitsValue(n: nat)
    ensures Value(Digits(n)) == n
  {
    assert Value([DigitChar(n % 10)]) == n % 10 by {
      assert [DigitChar(n % 10)][..0] == "";
    }
    if n >= 10 {
      DigitsValue(n / 10);
      var s := Digits(n);
      assert s[..|s| - 1] == Digits(n / 10);
    }
  }

  lemma {:induction false} PrependZero(s: string)
    ensures Value("0" + s) == Value(s)
  {
    if s != "" {
      PrependZero(s[..|s| - 1]);
      assert ("0" + s)[..|s|] == "0" + s[..|s| - 1];
    } else {
      assert ("0" + s)[..0] == "";
    }
  }

  /** Padding changes neither the value nor the digits. */
  lemma {:induction false} PadStartValue(s: string, width: nat)
    requires AllDigits(s)
    ensures Value(PadStart(s, width)) == Value(s) && AllDigits(PadStart(s, width))
    decreases width - |s|
  {
    if |s| < width {
      PrependZero(s);
      PadStartValue("0" + s, width);
    }
  }

  lemma {:induction false} PadStartLength(s: string, width: nat)
    ensures |PadStart(s, width)| == if |s| < width then width else |s|
    decreases width - |s|
  {
    if |s| < width {
      PadStartLength("0" + s, width);
    }
  }

  /** A string splits in only one way at its last dash. */
  lemma SplitLastDash(a: string, b: string, c: string, d: string)
    requires '-' !in b && '-' !in d && a + "-" + b == c + "-" + d
    ensures a == c && b == d
  {
    var s := a + "-" + b;
    assert forall i :: |a| < i < |s| ==> s[i] == b[i - |a| - 1];
    assert forall i :: |c| < i < |s| ==> s[i] == d[i - |c| - 1];
    assert s[|a|] == '-' && s[|c|] == '-';
    assert s[..|a|] == a && s[..|c|] == c;
    assert s[|a| + 1..] == b && s[|c| + 1..] == d;
  }

  lemma DecimalInjective(m: int, n: int)
    requires Decimal(m) == Decimal(n)
    ensures m == n
  {
    if m < 0 && n < 0 {
      assert Decimal(m)[1..] == Digits(-m) && Decimal(n)[1..] == Digits(-n);
    }
    DigitsValue(if m < 0 then -m else m);
    DigitsValue(if n < 0 then -n else n);
    assert m < 0 <==> Decimal(m)[0] == '-';
    assert n < 0 <==> Decimal(n)[0] == '-';
  }

  /** Manual and reversal numbers determine their series, year and count, however many digits the
      count has outgrown its padding by. */
  lemma EntryNumberInjective(p: string, y: int, m: nat, q: string, z: int, n: nat)
    requires p in ["JE", "REV"] && q in ["JE", "REV"]
    requires EntryNumber(p, y, m) == EntryNumber(q, z, n)
    ensures p == q && y == z && m == n
  {
    DigitsValue(m);
    DigitsValue(n);
    PadStartValue(Digits(m), 4);
    PadStartValue(Digits(n), 4);
    SplitLastDash(p + "-" + Decimal(y), PadStart(Digits(m), 4), q + "-" + Decimal(z), PadStart(Digits(n), 4));
    var s := p + "-" + Decimal(y);
    assert s[0] == p[0] && s[0] == q[0];
    assert s[|p| + 1..] == Decimal(y) && s[|q| + 1..] == Decimal(z);
    DecimalInjective(y, z);
  }

  lemma {:induction false} IsoMonthShape(month: int)
    requires 0 <= month < 120000
    ensures IsoMonth(month) == PadStart(Digits(month / 12), 4) + "-" + PadStart(Digits(month % 12 + 1), 2)
  {
    DigitsLength(month / 12, 4);
    DigitsLength(month % 12 + 1, 2);
    PadStartLength(Digits(month / 12), 4);
    PadStartLength(Digits(month % 12 + 1), 2);
  }

  lemma {:induction false} DigitsLength(n: nat, width: nat)
    requires 1 <= width && n < Power10(width)
    ensures |Digits(n)| <= width
  {
    if n >= 10 {
      assert n / 10 < Power10(width - 1);
      DigitsLength(n / 10, width - 1);
    }
  }

  ghost function Power10(n: nat): nat {
    if n == 0 then 1 else 10 * Power10(n - 1)
  }

  /** Outside the years 0 to 9999 the ISO form has a sign and six digits, and the slice keeps just those. */
  lemma SignedYear(month: int)
    requires -1000000 < month / 12 < 1000000 && !(0 <= month < 120000)
    ensures var year := month / 12;
            IsoMonth(month) == if year < 0 then "-" + PadStart(Digits(-year), 6) else "+" + PadStart(Digits(year), 6)
  {
    hide PadStart, Digits;
    var year := month / 12;
    SixDigits(if year < 0 then -year else year);
  }

  lemma {:induction false} SixDigits(n: nat)
    requires n < 1000000
    ensures |PadStart(Digits(n), 6)| == 6
  {
    hide PadStart, Digits;
    assert Power10(6) == 1000000 by { assert Power10(3) == 1000; }
    DigitsLength(n, 6);
    PadStartLength(Digits(n), 6);
  }

  /** What the label keeps of a month: all of it from the year 0 to 9999, otherwise its year. */
  predicate SameLabel(m: int, n: int) {
    if 0 <= m < 120000 then m == n else m / 12 == n / 12
  }

  lemma {:induction false} PaddedInjective(m: nat, n: nat, width: nat)
    requires PadStart(Digits(m), width) == PadStart(Digits(n), width)
    ensures m == n
  {
    DigitsValue(m);
    DigitsValue(n);
    PadStartValue(Digits(m), width);
    PadStartValue(Digits(n), width);
  }

  lemma IsoMonthDigits(m: int)
    requires 0 <= m < 120000
    ensures IsoMonth(m)[0] != '-' && IsoMonth(m)[0] != '+'
  {
    hide Digits, PadStart, IsoMonth;
    IsoMonthShape(m);
    PadStartValue(Digits(m / 12), 4);
    PadStartLength(Digits(m / 12), 4);
    assert IsoMonth(m)[0] == PadStart(Digits(m / 12), 4)[0];
  }

  lemma IsoMonthEqual(m: int, n: int)
    requires -1000000 < m / 12 < 1000000 && -1000000 < n / 12 < 1000000
    ensures IsoMonth(m) == IsoMonth(n) <==> SameLabel(m, n)
  {
    hide IsoMonth, PadStart, Digits;
    if 0 <= m < 120000 { IsoMonthDigits(m); } else { SignedYear(m); }
    if 0 <= n < 120000 { IsoMonthDigits(n); } else { SignedYear(n); }
    if IsoMonth(m) == IsoMonth(n) {
      if 0 <= m < 120000 && 0 <= n < 120000 {
        IsoMonthInjective(m, n);
      } else if !(0 <= m < 120000) && !(0 <= n < 120000) {
        var y, z := m / 12, n / 12;
        assert (y < 0 <==> IsoMonth(m)[0] == '-') && (z < 0 <==> IsoMonth(n)[0] == '-');
        assert IsoMonth(m)[1..] == PadStart(Digits(if y < 0 then -y else y), 6);
        assert IsoMonth(n)[1..] == PadStart(Digits(if z < 0 then -z else z), 6);
        PaddedInjective(if y < 0 then -y else y, if z < 0 then -z else z, 6);
      }
    }
  }

  lemma IsoMonthInjective(m: int, n: int)
    requires 0 <= m < 120000 && 0 <= n < 120000 && IsoMonth(m) == IsoMonth(n)
    ensures m == n
  {
    hide IsoMonth, PadStart, Digits, Value;
    IsoMonthShape(m);
    IsoMonthShape(n);
    PadStartValue(Digits(m % 12 + 1), 2);
    PadStartValue(Digits(n % 12 + 1), 2);
    SplitLastDash(PadStart(Digits(m / 12), 4), PadStart(Digits(m % 12 + 1), 2),
                  PadStart(Digits(n / 12), 4), PadStart(Digits(n % 12 + 1), 2));
    PaddedInjective(m / 12, n / 12, 4);
    PaddedInjective(m % 12 + 1, n % 12 + 1, 2);
  }

  /** Two depreciation numbers are equal exactly when they are of one asset code and, from the year 0 to 9999, of
      one month, otherwise of one year. (The years are as wide as an ISO date has digits for.) */
  lemma DepreciationNumberEqual(c: string, m: int, d: string, n: int)
    requires -1000000 < m / 12 < 1000000 && -1000000 < n / 12 < 1000000
    ensures DepreciationNumber(c, m) == DepreciationNumber(d, n) <==> c == d && SameLabel(m, n)
  {
    hide IsoMonth, SameLabel;
    IsoMonthEqual(m, n);
    if DepreciationNumber(c, m) == DepreciationNumber(d, n) { DepreciationNumberParts(c, m, d, n); }
  }

  lemma DepreciationNumberParts(c: string, m: int, d: string, n: int)
    requires DepreciationNumber(c, m) == DepreciationNumber(d, n)
    ensures c == d && IsoMonth(m) == IsoMonth(n)
  {
    hide IsoMonth;
    var s := DepreciationNumber(c, m);
    assert |s| == 4 + |c| + 8 && |s| == 4 + |d| + 8;
    assert s[4..|s| - 8] == c && s[4..|s| - 8] == d;
    assert s[|s| - 7..] == IsoMonth(m) && s[|s| - 7..] == IsoMonth(n);
  }

  /** The three series never share a number. */
  lemma SeriesDisjoint(p: string, y: int, m: nat, code: string, month: int)
    requires p in ["JE", "REV"]
    ensures EntryNumber(p, y, m) != DepreciationNumber(code, month)
  {
    assert EntryNumber(p, y, m)[0] == p[0];
    assert DepreciationNumber(code, month)[0] == 'D';
  }

  /** A period name determines its month. */
  lemma MonthNameInjective(m: int, n: int)
    requires MonthName(m) == MonthName(n)
    ensures m == n
  {
    var s := MonthName(m);
    assert s[4..] == Decimal(m / 12) && s[4..] == Decimal(n / 12);
    DecimalInjective(m / 12, n / 12);
    assert s[..3] == Abbreviation(m % 12) && s[..3] == Abbreviation(n % 12);
    AbbreviationInjective(m % 12, n % 12);
  }

  /** No two months share an abbreviation. */
  lemma AbbreviationInjective(i: nat, j: nat)
    requires i < 12 && j < 12 && Abbreviation(i) == Abbreviation(j)
    ensures i == j
  {
    var s := Abbreviation(i);
    var c0, c1, c2 := s[0], s[1], s[2];
    assert Abbreviation(j)[0] == c0 && Abbreviation(j)[1] == c1 && Abbreviation(j)[2] == c2;
  }

  /** What numbers look like. */
  lemma NumberFormat()
    ensures EntryNumber("JE", 2026, 7) == "JE-2026-0007"
    ensures DepreciationNumber("FA1", 12 * 2026 + 6) == "DEP-FA1-2026-07"
  {
    hide Digits, PadStart, IsoMonth;
    DigitFormat();
    SevenPadded();
    July();
  }

  lemma SevenPadded()
    ensures PadStart("7", 4) == "0007" && PadStart("7", 2) == "07" && PadStart("2026", 4) == "2026"
  {
    hide PadStart;
    Prepended("7", 4);
    Prepended("07", 4);
    Prepended("007", 4);
    Prepended("0007", 4);
    Prepended("7", 2);
    Prepended("07", 2);
    Prepended("2026", 4);
    assert "0" + "7" == "07" && "0" + "07" == "007" && "0" + "007" == "0007";
  }

  lemma July()
    ensures IsoMonth(12 * 2026 + 6) == "2026-07"
  {
    hide Digits, PadStart, IsoMonth;
    var month := 12 * 2026 + 6;
    assert month / 12 == 2026 && month % 12 + 1 == 7;
    IsoMonthShape(month);
    DigitFormat();
    SevenPadded();
  }

  lemma {:induction false} Prepended(s: string, width: nat)
    ensures PadStart(s, width) == if width <= |s| then s else PadStart("0" + s, width)
  {
  }

  lemma DigitFormat()
    ensures Digits(7) == "7" && Digits(2026) == "2026"
  {
    hide Digits, DigitChar;
    Characters();
    OneMoreDigit(7);
    OneMoreDigit(2);
    OneMoreDigit(20);
    OneMoreDigit(202);
    OneMoreDigit(2026);
    assert Digits(2026) == ['2'] + ['0'] + ['2'] + ['6'];
  }

  lemma Characters()
    ensures DigitChar(0) == '0' && DigitChar(2) == '2' && DigitChar(6) == '6' && DigitChar(7) == '7'
  {
  }

  lemma {:induction false} OneMoreDigit(n: nat)
    ensures Digits(n) == if n < 10 then [DigitChar(n)] else Digits(n / 10) + [DigitChar(n % 10)]
  {
  }
}
