/** The three textual date forms of the program: `yyyy-mm-dd` and
    `mm/dd/yyyy`, read as `strptime` reads `%Y-%m-%d` and `%m/%d/%Y`, and
    `dd Mon yyyy`, written as `strftime('%d %b %Y')` writes it with English
    month abbreviations.  Every numeric field is a fixed-width run of digit
    pairs.

    `strptime`'s `%m` and `%d` also accept a single digit (and `%d` a
    space followed by a digit); these parsers accept only the two-digit
    form, so every string they accept is exactly ten characters long. */
module DateText {
  import opened Runtime
  import opened Decimal
  import opened Calendar

  /** The date, if the triple names one; otherwise the ValueError `strptime` raises. */
  function CheckDate(d: Date): (r: Option<Date>)
    ensures r.Some? <==> ValidDate(d)
    ensures r.Some? ==> r.value == d
  {
    if ValidDate(d) then Some(d) else None
  }

  /** Characters `k` and `k + 1` of `s` are both digits. */
  predicate PairAt(s: string, k: nat) {
    k + 2 <= |s| && IsDigit(s[k]) && IsDigit(s[k + 1])
  }

  /** The number the digit pair at `k` denotes. */
  function ValueAt(s: string, k: nat): (n: int)
    requires PairAt(s, k)
    ensures 0 <= n < 100
  {
    Num2(s[k], s[k + 1])
  }

  /** `%Y` as four digits: the century pair then the year-of-century pair. */
  function Year4(y: int): (s: string)
    requires 0 <= y < 10000
    ensures |s| == 4
  {
    Two(y / 100) + Two(y % 100)
  }

  /** `datetime.strptime(s, '%Y-%m-%d')`, None where it raises ValueError. */
  function ParseIso(s: string): Option<Date> {
    if |s| == 10 && s[4] == '-' && s[7] == '-'
       && PairAt(s, 0) && PairAt(s, 2) && PairAt(s, 5) && PairAt(s, 8)
    then CheckDate(Date(ValueAt(s, 0) * 100 + ValueAt(s, 2), ValueAt(s, 5), ValueAt(s, 8)))
    else None
  }

  /** `d.strftime('%Y-%m-%d')`. */
  function FormatIso(d: Date): (s: string)
    requires ValidDate(d)
    ensures |s| == 10
  {
    Year4(d.year) + "-" + Two(d.month) + "-" + Two(d.day)
  }

  /** `datetime.strptime(s, '%m/%d/%Y')`, None where it raises ValueError. */
  function ParseUs(s: string): Option<Date> {
    if |s| == 10 && s[2] == '/' && s[5] == '/'
       && PairAt(s, 0) && PairAt(s, 3) && PairAt(s, 6) && PairAt(s, 8)
    then CheckDate(Date(ValueAt(s, 6) * 100 + ValueAt(s, 8), ValueAt(s, 0), ValueAt(s, 3)))
    else None
  }

  /** `d.strftime('%m/%d/%Y')`. */
  function FormatUs(d: Date): (s: string)
    requires ValidDate(d)
    ensures |s| == 10
  {
    Two(d.month) + "/" + Two(d.day) + "/" + Year4(d.year)
  }

  const MonthAbbreviations: seq<string> :=
    ["Jan", "Feb", "Mar", "Apr", "May", "Jun", "Jul", "Aug", "Sep", "Oct", "Nov", "Dec"]

  /** `%b` in the C locale. */
  function MonthAbbr(m: int): (s: string)
    requires 1 <= m <= 12
    ensures |s| == 3
  {
    MonthAbbreviations[m - 1]
  }

  /** The month number of an English month abbreviation. */
  function MonthOfAbbr(s: string): (r: Option<int>)
    ensures r.Some? ==> 1 <= r.value <= 12 && MonthAbbr(r.value) == s
  {
    if s == "Jan" then Some(1) else if s == "Feb" then Some(2)
    else if s == "Mar" then Some(3) else if s == "Apr" then Some(4)
    else if s == "May" then Some(5) else if s == "Jun" then Some(6)
    else if s == "Jul" then Some(7) else if s == "Aug" then Some(8)
    else if s == "Sep" then Some(9) else if s == "Oct" then Some(10)
    else if s == "Nov" then Some(11) else if s == "Dec" then Some(12)
    else None
  }

  /** Each month is recovered from its abbreviation. */
  lemma MonthAbbrRoundTrip(m: int)
    requires 1 <= m <= 12
    ensures MonthOfAbbr(MonthAbbr(m)) == Some(m)
  {
    var s := MonthAbbr(m);
    assert s[0] == "JFMAMJJASOND"[m - 1];
    assert s[1] == "aeapauuuecoe"[m - 1];
    assert s[2] == "nbrrynlgptvc"[m - 1];
  }

  /** `d.strftime('%d %b %Y')`, e.g. "01 Jan 2001". */
  function FormatDisplay(d: Date): (s: string)
    requires ValidDate(d)
    ensures |s| == 11
  {
    Two(d.day) + " " + MonthAbbr(d.month) + " " + Year4(d.year)
  }

  /** Reads a `dd Mon yyyy` string back into its date. */
  function ParseDisplay(s: string): Option<Date> {
    if |s| == 11 && s[2] == ' ' && s[6] == ' ' && PairAt(s, 0) && PairAt(s, 7) && PairAt(s, 9)
    then
      match MonthOfAbbr(s[3..6])
      case None => None
      case Some(m) => CheckDate(Date(ValueAt(s, 7) * 100 + ValueAt(s, 9), m, ValueAt(s, 0)))
    else None
  }

  /** The pairs written for a valid date read back to its fields. */
  lemma PairRoundTrips(d: Date)
    requires ValidDate(d)
    ensures Num2(Year4(d.year)[0], Year4(d.year)[1]) * 100 + Num2(Year4(d.year)[2], Year4(d.year)[3]) == d.year
    ensures Num2(Two(d.month)[0], Two(d.month)[1]) == d.month
    ensures Num2(Two(d.day)[0], Two(d.day)[1]) == d.day
  {
    TwoRoundTrip(d.year / 100);
    TwoRoundTrip(d.year % 100);
    TwoRoundTrip(d.month);
    TwoRoundTrip(d.day);
  }

  /** A century pair and a year-of-century pair are the four-digit year they denote. */
  lemma Year4Canonical(s: string, k: nat)
    requires PairAt(s, k) && PairAt(s, k + 2)
    ensures Year4(ValueAt(s, k) * 100 + ValueAt(s, k + 2)) == s[k..k + 4]
  {
    var a, b := ValueAt(s, k), ValueAt(s, k + 2);
    assert (a * 100 + b) / 100 == a;
    assert (a * 100 + b) % 100 == b;
    TwoCanonical(s[k], s[k + 1]);
    TwoCanonical(s[k + 2], s[k + 3]);
  }

  /** Every valid date's `yyyy-mm-dd` rendering parses back to it. */
  lemma IsoRoundTrip(d: Date)
    requires ValidDate(d)
    ensures ParseIso(FormatIso(d)) == Some(d)
  {
    var s := FormatIso(d);
    PairRoundTrips(d);
    assert s[..4] == Year4(d.year);
    assert s[5..7] == Two(d.month);
    assert s[8..] == Two(d.day);
  }

  /** The only string that parses as `yyyy-mm-dd` to a date is its rendering. */
  lemma IsoCanonical(s: string)
    requires ParseIso(s).Some?
    ensures s == FormatIso(ParseIso(s).value)
  {
    Year4Canonical(s, 0);
    TwoCanonical(s[5], s[6]);
    TwoCanonical(s[8], s[9]);
    assert s == s[0..4] + "-" + [s[5], s[6]] + "-" + [s[8], s[9]];
  }

  /** A string parses as `yyyy-mm-dd` exactly when it is the rendering of a valid date. */
  lemma ParseIsoExact(s: string, d: Date)
    ensures ParseIso(s) == Some(d) <==> ValidDate(d) && s == FormatIso(d)
  {
    if ValidDate(d) && s == FormatIso(d) {
      IsoRoundTrip(d);
    }
    if ParseIso(s) == Some(d) {
      IsoCanonical(s);
    }
  }

  /** Every valid date's `mm/dd/yyyy` rendering parses back to it. */
  lemma UsRoundTrip(d: Date)
    requires ValidDate(d)
    ensures ParseUs(FormatUs(d)) == Some(d)
  {
    var s := FormatUs(d);
    PairRoundTrips(d);
    assert s[..2] == Two(d.month);
    assert s[3..5] == Two(d.day);
    assert s[6..] == Year4(d.year);
  }

  /** The only string that parses as `mm/dd/yyyy` to a date is its rendering. */
  lemma UsCanonical(s: string)
    requires ParseUs(s).Some?
    ensures s == FormatUs(ParseUs(s).value)
  {
    Year4Canonical(s, 6);
    TwoCanonical(s[0], s[1]);
    TwoCanonical(s[3], s[4]);
    assert s == [s[0], s[1]] + "/" + [s[3], s[4]] + "/" + s[6..10];
  }

  /** A string parses as `mm/dd/yyyy` exactly when it is the rendering of a valid date. */
  lemma ParseUsExact(s: string, d: Date)
    ensures ParseUs(s) == Some(d) <==> ValidDate(d) && s == FormatUs(d)
  {
    if ValidDate(d) && s == FormatUs(d) {
      UsRoundTrip(d);
    }
    if ParseUs(s) == Some(d) {
      UsCanonical(s);
    }
  }

  /** Rendering as `dd Mon yyyy` loses nothing: the triple reads back unchanged. */
  lemma DisplayRoundTrip(d: Date)
    requires ValidDate(d)
    ensures ParseDisplay(FormatDisplay(d)) == Some(d)
  {
    var s := FormatDisplay(d);
    PairRoundTrips(d);
    assert s[..2] == Two(d.day);
    assert s[3..6] == MonthAbbr(d.month);
    MonthAbbrRoundTrip(d.month);
    assert s[7..] == Year4(d.year);
  }
}
