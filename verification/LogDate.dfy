/** The dates at the start of a log line: what the regular expression takes, and what a date is. */
module LogDates {
  import opened Common

  /** How many digits stand at position i. */
  function DigitRun(s: string, i: nat): (n: nat)
    requires i <= |s|
    ensures i + n <= |s| && forall k :: i <= k < i + n ==> IsDigit(s[k])
    decreases |s| - i
  {
    if i < |s| && IsDigit(s[i]) then 1 + DigitRun(s, i + 1) else 0
  }

  // ----- the regular expression -----

  predicate TwoDigits(s: string, i: nat, lo: int, hi: int)
    requires i + 2 <= |s|
  {
    IsDigit(s[i]) && IsDigit(s[i + 1]) && lo <= (s[i] as int - '0' as int) * 10 + (s[i + 1] as int - '0' as int) <= hi
  }

  /** Month, day and time of day behind the year. */
  predicate DayAndTime(s: string, j: nat) {
    && j + 15 <= |s|
    && s[j] == '-' && TwoDigits(s, j + 1, 1, 12)
    && s[j + 3] == '-' && TwoDigits(s, j + 4, 1, 31)
    && s[j + 6] == 'T' && TwoDigits(s, j + 7, 0, 23)
    && s[j + 9] == ':' && TwoDigits(s, j + 10, 0, 59)
    && s[j + 12] == ':' && TwoDigits(s, j + 13, 0, 59)
  }

  /** Behind the optional fraction of a second. */
  function FractionEnd(s: string, k: nat): (end: nat)
    requires k <= |s|
    ensures k <= end <= |s|
  {
    var digits := if k < |s| && s[k] == '.' then DigitRun(s, k + 1) else 0;
    if digits > 0 then k + 1 + digits else k
  }

  /** Behind the optional Z. */
  function ZoneEnd(s: string, k: nat): (end: nat)
    requires k <= |s|
    ensures k <= end <= |s|
  {
    if k < |s| && s[k] == 'Z' then k + 1 else k
  }

  /** Where the year of a date ends: behind four digits, or more without a leading zero, and an
    optional sign. */
  function YearEnd(s: string): (end: Option<nat>)
    ensures end.Some? ==> end.value <= |s|
  {
    var sign := if s != "" && s[0] == '-' then 1 else 0;
    var year := DigitRun(s, sign);
    if year < 4 || (year > 4 && s[sign] == '0') then None else Some(sign + year)
  }

  /** The length of the date at the start of a line. */
  function DateLength(s: string): (n: Option<nat>)
    ensures n.Some? ==> n.value <= |s|
  {
    match YearEnd(s)
    case None => None
    case Some(j) => if DayAndTime(s, j) then Some(ZoneEnd(s, FractionEnd(s, j + 15))) else None
  }

  // ----- what a date is -----

  /** The parts of a date. A year has four digits, or more without a leading zero; an empty fraction
    is none. */
  datatype Date = Date(
    negative: bool, year: string, month: nat, day: nat, hour: nat, minute: nat, second: nat,
    fraction: string, zulu: bool)

  predicate ValidDate(d: Date) {
    && AllDigits(d.year) && |d.year| >= 4 && (|d.year| > 4 ==> d.year[0] != '0')
    && 1 <= d.month <= 12 && 1 <= d.day <= 31
    && d.hour <= 23 && d.minute <= 59 && d.second <= 59
    && AllDigits(d.fraction)
  }

  function Two(n: nat): (s: string)
    requires n < 100
    ensures |s| == 2
  {
    [DigitChar(n / 10), DigitChar(n % 10)]
  }

  function YearText(d: Date): string {
    (if d.negative then "-" else "") + d.year
  }

  function DayText(d: Date): (s: string)
    requires ValidDate(d)
    ensures |s| == 15
  {
    "-" + Two(d.month) + "-" + Two(d.day) + "T" + Two(d.hour) + ":" + Two(d.minute) + ":" + Two(d.second)
  }

  function TailText(d: Date): string {
    (if d.fraction == "" then "" else "." + d.fraction) + (if d.zulu then "Z" else "")
  }

  function DateText(d: Date): string
    requires ValidDate(d)
  {
    YearText(d) + DayText(d) + TailText(d)
  }

  // ----- runs of digits -----

  /** A run of digits ends where the digits end. */
  lemma {:induction false} DigitRunIs(s: string, i: nat, n: nat)
    requires i + n <= |s| && (forall k :: i <= k < i + n ==> IsDigit(s[k]))
    requires i + n < |s| ==> !IsDigit(s[i + n])
    ensures DigitRun(s, i) == n
    decreases n
  {
    if n > 0 {
      DigitRunIs(s, i + 1, n - 1);
    }
  }

  lemma DigitRunStops(s: string, i: nat)
    requires i <= |s|
    ensures var n := DigitRun(s, i);
      i + n < |s| ==> !IsDigit(s[i + n])
    decreases |s| - i
  {
    if i < |s| && IsDigit(s[i]) {
      DigitRunStops(s, i + 1);
    }
  }

  lemma DigitRunAppend(d: string, rest: string, i: nat)
    requires i <= |d| && (rest != "" ==> !IsDigit(rest[0]))
    ensures DigitRun(d + rest, i) == DigitRun(d, i)
  {
    DigitRunStops(d, i);
    DigitRunIs(d + rest, i, DigitRun(d, i));
  }

  // ----- every date text is found -----

  lemma TwoStands(s: string, i: nat, n: nat, lo: int, hi: int)
    requires i + 2 <= |s| && n < 100 && s[i] == Two(n)[0] && s[i + 1] == Two(n)[1]
    ensures TwoDigits(s, i, lo, hi) <==> lo <= n <= hi
  {
  }

  lemma DayTextChars(d: Date)
    requires ValidDate(d)
    ensures var t := DayText(d);
      && t[0] == t[3] == '-' && t[6] == 'T' && t[9] == t[12] == ':'
      && t[1] == Two(d.month)[0] && t[2] == Two(d.month)[1]
      && t[4] == Two(d.day)[0] && t[5] == Two(d.day)[1]
      && t[7] == Two(d.hour)[0] && t[8] == Two(d.hour)[1]
      && t[10] == Two(d.minute)[0] && t[11] == Two(d.minute)[1]
      && t[13] == Two(d.second)[0] && t[14] == Two(d.second)[1]
  {
    hide Two;
  }

  lemma DayFound(s: string, j: nat, d: Date)
    requires ValidDate(d) && j + 15 <= |s| && s[j..j + 15] == DayText(d)
    ensures DayAndTime(s, j)
  {
    hide TwoDigits, Two, DayText;
    var t := s[j..j + 15];
    DayTextChars(d);
    assert s[j] == t[0] && s[j + 1] == t[1] && s[j + 2] == t[2] && s[j + 3] == t[3] && s[j + 4] == t[4];
    assert s[j + 5] == t[5] && s[j + 6] == t[6] && s[j + 7] == t[7] && s[j + 8] == t[8] && s[j + 9] == t[9];
    assert s[j + 10] == t[10] && s[j + 11] == t[11] && s[j + 12] == t[12] && s[j + 13] == t[13] && s[j + 14] == t[14];
    TwoStands(s, j + 1, d.month, 1, 12);
    TwoStands(s, j + 4, d.day, 1, 31);
    TwoStands(s, j + 7, d.hour, 0, 23);
    TwoStands(s, j + 10, d.minute, 0, 59);
    TwoStands(s, j + 13, d.second, 0, 59);
  }

  lemma YearFound(d: Date, rest: string)
    requires ValidDate(d) && rest != "" && !IsDigit(rest[0])
    ensures YearEnd(YearText(d) + rest) == Some(|YearText(d)|)
  {
    var s := YearText(d) + rest;
    var sign := if d.negative then 1 else 0;
    assert forall k :: sign <= k < sign + |d.year| ==> s[k] == d.year[k - sign];
    DigitRunIs(s, sign, |d.year|);
  }

  lemma TailFound(s: string, k: nat, d: Date)
    requires ValidDate(d) && k <= |s| && TailText(d) <= s[k..]
    ensures k + |TailText(d)| <= ZoneEnd(s, FractionEnd(s, k))
  {
    var t, n := TailText(d), |d.fraction|;
    assert forall i :: 0 <= i < |t| ==> s[k + i] == s[k..][i] == t[i];
    if n > 0 {
      assert forall i :: k + 1 <= i < k + 1 + n ==> s[i] == t[i - k] == d.fraction[i - k - 1];
      DigitRunCovers(s, k + 1, n);
      if d.zulu {
        assert s[k + 1 + n] == 'Z';
        DigitRunIs(s, k + 1, n);
      }
    }
  }

  lemma {:induction false} DigitRunCovers(s: string, i: nat, n: nat)
    requires i + n <= |s| && (forall k :: i <= k < i + n ==> IsDigit(s[k]))
    ensures DigitRun(s, i) >= n
    decreases n
  {
    if n > 0 {
      DigitRunCovers(s, i + 1, n - 1);
    }
  }

  lemma PrefixIsFound(s: string, d: Date)
    requires ValidDate(d) && DateText(d) <= s
    ensures DateLength(s).Some? && |DateText(d)| <= DateLength(s).value
  {
    hide YearText, DayText, TailText, YearEnd, DayAndTime, FractionEnd, ZoneEnd;
    var year, day, tail := YearText(d), DayText(d), TailText(d);
    var j := |year|;
    var more := s[|DateText(d)|..];
    var rest := day + (tail + more);
    assert s == DateText(d) + more;
    Regroup(year, day, tail, more);
    DayTextChars(d);
    YearFound(d, rest);
    Slices(year, day, tail + more);
    DayFound(s, j, d);
    assert tail <= tail + more;
    TailFound(s, j + 15, d);
  }

  lemma Regroup(a: string, b: string, c: string, d: string)
    ensures a + b + c + d == a + (b + (c + d))
  {
  }

  lemma Slices(a: string, b: string, c: string)
    ensures var s := a + (b + c);
      s[|a|..|a| + |b|] == b && s[|a| + |b|..] == c
  {
  }

  // ----- and only date texts are -----

  function TwoAt(s: string, i: nat): (n: nat)
    requires i + 2 <= |s| && IsDigit(s[i]) && IsDigit(s[i + 1])
    ensures n < 100 && Two(n) == s[i..i + 2]
  {
    (s[i] as int - '0' as int) * 10 + (s[i + 1] as int - '0' as int)
  }

  lemma DateOf(s: string) returns (d: Date)
    requires DateLength(s).Some?
    ensures ValidDate(d) && DateText(d) == s[..DateLength(s).value]
  {
    hide YearEnd, FractionEnd, ZoneEnd, DayAndTime, DayText, TailText, YearText, ValidDate, AllDigits, DateLength,
      DayOf;
    OpenDate(s);
    var j := YearEnd(s).value;
    var k := FractionEnd(s, j + 15);
    var n := ZoneEnd(s, k);
    var fraction := if k > j + 15 then s[j + 16..k] else "";
    YearOf(s, j);
    FractionOf(s, j + 15);
    var year := s[if s[0] == '-' then 1 else 0..j];
    var base := DayOf(s, j);
    d := base.(negative := s[0] == '-', year := year, fraction := fraction, zulu := n > k);
    SameDay(base, d);
    TailOf(s, j + 15, d);
    YearTextOf(s, j, d);
    Join(s, j, j + 15, n);
  }

  lemma OpenDate(s: string)
    requires DateLength(s).Some?
    ensures YearEnd(s).Some? && DayAndTime(s, YearEnd(s).value)
    ensures DateLength(s).value == ZoneEnd(s, FractionEnd(s, YearEnd(s).value + 15))
  {
  }

  lemma SameDay(base: Date, d: Date)
    requires ValidDate(base)
    requires d == base.(negative := d.negative, year := d.year, fraction := d.fraction, zulu := d.zulu)
    requires AllDigits(d.year) && |d.year| >= 4 && (|d.year| > 4 ==> d.year[0] != '0') && AllDigits(d.fraction)
    ensures ValidDate(d) && DayText(d) == DayText(base)
  {
  }

  lemma YearOf(s: string, j: nat)
    requires YearEnd(s) == Some(j)
    ensures s != "" && j <= |s|
    ensures var sign := if s[0] == '-' then 1 else 0;
      && sign + 4 <= j && AllDigits(s[sign..j]) && (|s[sign..j]| > 4 ==> s[sign] != '0')
  {
  }

  lemma YearTextOf(s: string, j: nat, d: Date)
    requires s != "" && (if s[0] == '-' then 1 else 0) <= j <= |s|
    requires d.negative == (s[0] == '-') && d.year == s[if s[0] == '-' then 1 else 0..j]
    ensures YearText(d) == s[..j]
  {
  }

  lemma FractionOf(s: string, k: nat)
    requires k <= |s|
    ensures var f := FractionEnd(s, k);
      f > k ==> f > k + 1 && AllDigits(s[k + 1..f])
  {
  }

  lemma Join(s: string, a: nat, b: nat, c: nat)
    requires a <= b <= c <= |s|
    ensures s[..a] + s[a..b] + s[b..c] == s[..c]
  {
  }

  lemma TailOf(s: string, k: nat, d: Date)
    requires k <= |s|
    requires var f := FractionEnd(s, k);
      d.fraction == (if f > k then s[k + 1..f] else "") && d.zulu == (ZoneEnd(s, f) > f)
    ensures TailText(d) == s[k..ZoneEnd(s, FractionEnd(s, k))]
  {
  }

  /** The parts behind the year, with a year to go with them. */
  function DayOf(s: string, j: nat): (d: Date)
    requires DayAndTime(s, j)
    ensures ValidDate(d) && DayText(d) == s[j..j + 15]
  {
    var d := Date(false, "2000", TwoAt(s, j + 1), TwoAt(s, j + 4), TwoAt(s, j + 7), TwoAt(s, j + 10), TwoAt(s, j + 13),
                  "", false);
    DayTextAt(s, j, d);
    d
  }

  lemma DayTextAt(s: string, j: nat, d: Date)
    requires DayAndTime(s, j) && ValidDate(d)
    requires d.month == TwoAt(s, j + 1) && d.day == TwoAt(s, j + 4) && d.hour == TwoAt(s, j + 7)
    requires d.minute == TwoAt(s, j + 10) && d.second == TwoAt(s, j + 13)
    ensures DayText(d) == s[j..j + 15]
  {
    hide Two, TwoAt, DayText;
    DayTextChars(d);
    TwoAtChars(s, j + 1);
    TwoAtChars(s, j + 4);
    TwoAtChars(s, j + 7);
    TwoAtChars(s, j + 10);
    TwoAtChars(s, j + 13);
    var t := DayText(d);
    forall k | 0 <= k < 15 ensures t[k] == s[j + k] {
      assert k in {0, 1, 2, 3, 4, 5, 6, 7, 8, 9, 10, 11, 12, 13, 14};
    }
  }

  lemma TwoAtChars(s: string, i: nat)
    requires i + 2 <= |s| && IsDigit(s[i]) && IsDigit(s[i + 1])
    ensures Two(TwoAt(s, i))[0] == s[i] && Two(TwoAt(s, i))[1] == s[i + 1]
  {
  }

  /** At the start of a line the regular expression takes the longest date, and nothing if there is
    none. */
  lemma DateLengthIsLongest(s: string)
    ensures DateLength(s).Some? <==> exists d :: ValidDate(d) && DateText(d) <= s
    ensures DateLength(s).Some? ==>
      var n := DateLength(s).value;
      && (exists d :: ValidDate(d) && DateText(d) == s[..n])
      && forall d :: ValidDate(d) && DateText(d) <= s ==> |DateText(d)| <= n
  {
    hide DateLength, DateText, ValidDate;
    if DateLength(s).Some? {
      var d := DateOf(s);
      assert s[..DateLength(s).value] <= s;
    }
    forall d | ValidDate(d) && DateText(d) <= s
      ensures DateLength(s).Some? && |DateText(d)| <= DateLength(s).value
    {
      PrefixIsFound(s, d);
    }
  }

  // ----- a date stands by itself and before other text -----

  /** A date by itself, as the regular expression takes it. */
  predicate CanonicalDate(date: string) {
    DateLength(date) == Some(|date|)
  }

  lemma DateTextIsCanonical(d: Date)
    requires ValidDate(d)
    ensures CanonicalDate(DateText(d))
  {
    hide DateLength, DateText, ValidDate;
    PrefixIsFound(DateText(d), d);
  }

  lemma YearStands(date: string, rest: string)
    requires YearEnd(date).Some? && (rest != "" ==> !IsDigit(rest[0]))
    ensures YearEnd(date + rest) == YearEnd(date)
  {
    DigitRunAppend(date, rest, if date[0] == '-' then 1 else 0);
  }

  lemma FractionStands(date: string, rest: string, k: nat)
    requires k <= |date| && (rest != "" ==> !IsDigit(rest[0]) && rest[0] != '.')
    ensures FractionEnd(date + rest, k) == FractionEnd(date, k)
  {
    if k < |date| && date[k] == '.' {
      DigitRunAppend(date, rest, k + 1);
    }
  }

  lemma CanonicalDay(date: string)
    requires CanonicalDate(date)
    ensures YearEnd(date).Some? && YearEnd(date).value + 15 <= |date|
  {
  }

  lemma DayStands(date: string, rest: string, j: nat)
    requires j + 15 <= |date|
    ensures DayAndTime(date + rest, j) <==> DayAndTime(date, j)
  {
    assert forall i :: 0 <= i < |date| ==> (date + rest)[i] == date[i];
  }

  lemma DateStands(date: string, rest: string)
    requires CanonicalDate(date)
    requires rest != "" ==> !IsDigit(rest[0]) && rest[0] != '.' && rest[0] != 'Z'
    ensures DateLength(date + rest) == Some(|date|)
  {
    hide YearEnd, FractionEnd, DayAndTime;
    YearStands(date, rest);
    var j := YearEnd(date).value;
    CanonicalDay(date);
    DayStands(date, rest, j);
    FractionStands(date, rest, j + 15);
  }
}
