/** Reading one line of the fan controller's log. Lines are sequences of bytes, each a `char` below
  256; the degree and delta signs are their UTF-8 bytes. */
module LogLine {
  import opened Common
  import opened LogDates

  datatype TempDataPoint = TempDataPoint(date: string, temp: int, delta: int, level: int)

  /** A data point, no data point, or an exception that escapes. */
  datatype Extracted = Point(point: TempDataPoint) | Skip | Throws

  const SIZE_MODULUS := 0x1_0000_0000_0000_0000

  const DEGREES: string := ['\U{C2}', '\U{B0}', 'C']
  const DELTA: string := ['\U{CE}', '\U{94}']
  const WITH := "with "
  const LEVEL := "level is "

  // ----- the regular expressions -----

  predicate StartsAt(s: string, i: nat, m: string) {
    i + |m| <= |s| && forall k :: 0 <= k < |m| ==> s[i + k] == m[k]
  }

  /** Marker, digits, suffix: the length of the match at position i. */
  function MatchAt(s: string, i: nat, marker: string, suffix: string): (n: Option<nat>)
    requires i <= |s|
    ensures n.Some? ==> i + n.value <= |s|
  {
    if !StartsAt(s, i, marker) then None
    else
      var digits := DigitRun(s, i + |marker|);
      if StartsAt(s, i + |marker| + digits, suffix) then Some(|marker| + digits + |suffix|) else None
  }

  /** The leftmost match from position i on, or "" if there is none. */
  function FirstMatch(s: string, i: nat, marker: string, suffix: string): string
    requires i <= |s|
    decreases |s| - i
  {
    match MatchAt(s, i, marker, suffix)
    case Some(n) => s[i..i + n]
    case None => if i == |s| then "" else FirstMatch(s, i + 1, marker, suffix)
  }

  // ----- numbers -----

  function Value(s: string): (v: nat)
    requires AllDigits(s)
  {
    if s == "" then 0 else Value(s[..|s| - 1]) * 10 + (s[|s| - 1] as int - '0' as int)
  }

  /** `std::stoi` on a string of digits. */
  function Stoi(s: string): Option<int>
    requires AllDigits(s)
  {
    if s == "" || Value(s) > INT_MAX then None else Some(Value(s))
  }

  /** `substr` with a position inside the string and an unsigned count. */
  function Substr(s: string, pos: nat, count: nat): string
    requires pos <= |s|
  {
    s[pos..if count < |s| - pos then pos + count else |s|]
  }

  /** `a - b` on `size_t`. */
  function MinusSize(a: nat, b: nat): nat
    requires a < SIZE_MODULUS && b < SIZE_MODULUS
  {
    (a - b) % SIZE_MODULUS
  }

  lemma MatchShape(s: string, i: nat, marker: string, suffix: string)
    requires i <= |s|
    ensures var m := FirstMatch(s, i, marker, suffix);
      m != "" ==>
        && |marker| + |suffix| <= |m| <= |s|
        && forall k :: |marker| <= k < |m| - |suffix| ==> IsDigit(m[k])
    decreases |s| - i
  {
    if MatchAt(s, i, marker, suffix).None? && i < |s| {
      MatchShape(s, i + 1, marker, suffix);
    }
  }

  // ----- the extraction -----

  /** What the code cuts out of a match: `cut` is what it subtracts from the length. */
  function CutOut(m: string, marker: string, cut: nat): string
    requires |marker| <= |m| < SIZE_MODULUS && cut < SIZE_MODULUS
  {
    Substr(m, |marker|, MinusSize(|m|, cut))
  }

  /** The text cut out holds digits only: behind the number, either exactly the suffix is cut off, or
    there is none. */
  lemma CutOutIsDigits(m: string, marker: string, suffix: string, cut: nat)
    requires |marker| + |suffix| <= |m| < SIZE_MODULUS
    requires forall k :: |marker| <= k < |m| - |suffix| ==> IsDigit(m[k])
    requires cut == |marker| + |suffix| || (suffix == "" && |marker| <= cut < SIZE_MODULUS)
    ensures AllDigits(CutOut(m, marker, cut))
  {
    var text := CutOut(m, marker, cut);
    assert forall k :: 0 <= k < |text| ==> text[k] == m[|marker| + k];
  }

  /** The number behind a marker: an exception if there is no match, no number if `stoi` fails. */
  function NumberAfter(line: string, marker: string, suffix: string, cut: nat): (r: Option<Option<int>>)
    requires |line| < SIZE_MODULUS && marker != ""
    requires cut == |marker| + |suffix| || (suffix == "" && |marker| <= cut < SIZE_MODULUS)
  {
    var m := FirstMatch(line, 0, marker, suffix);
    MatchShape(line, 0, marker, suffix);
    if m == "" then None
    else
      CutOutIsDigits(m, marker, suffix, cut);
      Some(Stoi(CutOut(m, marker, cut)))
  }

  /** `extractMatches`. */
  method ExtractMatches(line: string) returns (r: Extracted)
    requires |line| < SIZE_MODULUS
    ensures r == Extract(line)
  {
    var date := DateLength(line);
    if date == None {
      return Skip;
    }
    var temp := NumberAfter(line, WITH, DEGREES, 8);
    if temp == None {
      return Throws;
    }
    if temp.value == None {
      return Skip;
    }
    var delta := NumberAfter(line, DELTA, DEGREES, 5);
    if delta == None {
      return Throws;
    }
    if delta.value == None {
      return Skip;
    }
    var level := NumberAfter(line, LEVEL, "", 12);
    if level == None {
      return Throws;
    }
    if level.value == None {
      return Skip;
    }
    return Point(TempDataPoint(line[..date.value], temp.value.value, delta.value.value, level.value.value));
  }

  /** What a line amounts to. */
  function Extract(line: string): Extracted
    requires |line| < SIZE_MODULUS
  {
    var date := DateLength(line);
    var temp := NumberAfter(line, WITH, DEGREES, 8);
    var delta := NumberAfter(line, DELTA, DEGREES, 5);
    var level := NumberAfter(line, LEVEL, "", 12);
    if date == None then Skip
    else match temp
      case None => Throws
      case Some(None) => Skip
      case Some(Some(t)) =>
        match delta
        case None => Throws
        case Some(None) => Skip
        case Some(Some(d)) =>
          match level
          case None => Throws
          case Some(None) => Skip
          case Some(Some(l)) => Point(TempDataPoint(line[..date.value], t, d, l))
  }

  // ----- writing a line -----

  lemma {:induction false} ValueOfDecimal(n: nat)
    ensures Value(Decimal(n)) == n
  {
    if n >= 10 {
      ValueOfDecimal(n / 10);
      var s := Decimal(n);
      assert s[..|s| - 1] == Decimal(n / 10);
    } else {
      var s := [DigitChar(n)];
      assert s[..|s| - 1] == "";
    }
  }

  lemma DropDigit(n: nat)
    requires n >= 10
    ensures |Decimal(n)| == |Decimal(n / 10)| + 1 && Decimal(n)[..|Decimal(n)| - 1] == Decimal(n / 10)
  {
  }

  /** The number of digits tells the size; three digits less divide by a thousand. */
  lemma DecimalLength(n: nat)
    ensures |Decimal(n)| <= 2 <==> n < 100
    ensures |Decimal(n)| <= 3 <==> n < 1000
    ensures n >= 1000 ==> |Decimal(n)| == |Decimal(n / 1000)| + 3 && Decimal(n)[..|Decimal(n)| - 3] == Decimal(n / 1000)
  {
    if n >= 10 {
      DropDigit(n);
    }
    if n >= 100 {
      DropDigit(n / 10);
    }
    if n >= 1000 {
      DropDigit(n / 10 / 10);
      assert n / 10 / 10 / 10 == n / 1000;
      var s := Decimal(n);
      assert s[..|s| - 1][..|s| - 2][..|s| - 3] == s[..|s| - 3];
    }
  }

  function Entry(marker: string, n: nat, suffix: string): string {
    marker + Decimal(n) + suffix
  }

  /** The three numbers of a line, with what stands between and behind them. */
  function Entries(temp: nat, delta: nat, level: nat): string {
    Entry(WITH, temp, DEGREES) + (", " + (Entry(DELTA, delta, DEGREES) + (", " + (Entry(LEVEL, level, "") + "."))))
  }

  /** A line as the fan controller writes it. */
  function Format(date: string, status: string, temp: nat, delta: nat, level: nat): string {
    date + status + Entries(temp, delta, level)
  }

  /** What may stand between the date and the first number: it does not prolong the date, and holds
    none of the three markers. */
  ghost predicate StatusText(status: string) {
    && (status != "" ==> !IsDigit(status[0]) && status[0] != '.' && status[0] != 'Z')
    && (forall i :: 0 <= i <= |status| ==>
          !StartsAt(status, i, WITH) && !StartsAt(status, i, DELTA) && !StartsAt(status, i, LEVEL))
  }

  // ----- the round trip -----

  /** The markers start with characters that no date and no number contains. */
  predicate Quiet(c: char) {
    c != WITH[0] && c != DELTA[0] && c != LEVEL[0]
  }

  lemma DateIsQuiet(date: string)
    requires CanonicalDate(date)
    ensures forall i :: 0 <= i < |date| ==> Quiet(date[i])
  {
    var j := YearEnd(date).value;
    assert forall i :: 0 <= i < j ==> Quiet(date[i]);
    DayIsQuiet(date, j);
  }

  lemma DayIsQuiet(date: string, j: nat)
    requires DayAndTime(date, j)
    ensures forall i :: j <= i < j + 15 ==> Quiet(date[i])
  {
    forall i | j <= i < j + 15 ensures Quiet(date[i]) {
      var k := i - j;
      assert k in {0, 1, 2, 3, 4, 5, 6, 7, 8, 9, 10, 11, 12, 13, 14};
    }
  }

  /** The leftmost match is the one meant, if its marker starts nowhere before. */
  lemma {:induction false} MatchFound(line: string, i: nat, pos: nat, marker: string, digits: string, suffix: string,
                                      rest: string)
    requires i <= pos <= |line| && line[pos..] == marker + digits + suffix + rest
    requires forall k :: i <= k < pos ==> !StartsAt(line, k, marker)
    requires AllDigits(digits) && ((suffix + rest) != "" ==> !IsDigit((suffix + rest)[0]))
    ensures FirstMatch(line, i, marker, suffix) == marker + digits + suffix
    decreases pos - i
  {
    if i < pos {
      MatchFound(line, i + 1, pos, marker, digits, suffix, rest);
    } else {
      MatchHere(line, pos, marker, digits, suffix, rest);
    }
  }

  lemma MatchHere(line: string, pos: nat, marker: string, digits: string, suffix: string, rest: string)
    requires pos <= |line| && line[pos..] == marker + digits + suffix + rest
    requires AllDigits(digits) && ((suffix + rest) != "" ==> !IsDigit((suffix + rest)[0]))
    ensures MatchAt(line, pos, marker, suffix) == Some(|marker| + |digits| + |suffix|)
    ensures line[pos..pos + |marker| + |digits| + |suffix|] == marker + digits + suffix
  {
    var m := marker + digits + suffix;
    var t := m + rest;
    assert forall k :: pos <= k < |line| ==> line[k] == t[k - pos];
    assert line[pos..pos + |m|] == m;
    var from := pos + |marker|;
    assert forall k :: from <= k < from + |digits| ==> line[k] == digits[k - from];
    assert forall k :: from + |digits| <= k < |line| ==> line[k] == (suffix + rest)[k - from - |digits|];
    DigitRunIs(line, from, |digits|);
  }

  /** No marker starts in the date, in the status text, or in the quiet text behind `with`. */
  lemma NoMarkerBefore(date: string, status: string, middle: string, tail: string, marker: string)
    requires CanonicalDate(date) && StatusText(status)
    requires marker == WITH || marker == DELTA || marker == LEVEL
    requires middle + tail != "" && (middle + tail)[0] == WITH[0]
    requires forall i :: 0 <= i < |middle| ==> middle[i] != marker[0]
    ensures forall k :: 0 <= k < |date| + |status| + |middle| ==> !StartsAt(date + status + (middle + tail), k, marker)
  {
    DateIsQuiet(date);
    var rest := middle + tail;
    var line := date + status + rest;
    forall k | 0 <= k < |date| + |status| + |middle| ensures !StartsAt(line, k, marker) {
      if |date| <= k < |date| + |status| {
        MarkerInStatus(date, status, rest, k - |date|, marker);
      } else {
        assert line[k] != marker[0];
      }
    }
  }

  /** A marker that starts in the status text would lie in it, or reach the `w` of `with` behind it. */
  lemma MarkerInStatus(date: string, status: string, rest: string, k: nat, marker: string)
    requires StatusText(status) && (marker == WITH || marker == DELTA || marker == LEVEL)
    requires rest != "" && rest[0] == WITH[0]
    requires k < |status|
    ensures !StartsAt(date + status + rest, |date| + k, marker)
  {
    var line := date + status + rest;
    assert !StartsAt(status, k, marker);
    assert forall n :: k <= n < |status| ==> line[|date| + n] == status[n];
    if k + |marker| > |status| {
      assert line[|date| + k + (|status| - k)] == WITH[0] != marker[|status| - k];
    }
  }

  lemma TempFound(date: string, status: string, temp: nat, delta: nat, level: nat)
    requires CanonicalDate(date) && StatusText(status)
    ensures FirstMatch(Format(date, status, temp, delta, level), 0, WITH, DEGREES) == Entry(WITH, temp, DEGREES)
  {
    hide Decimal, CanonicalDate, StatusText;
    var tail := Entries(temp, delta, level);
    assert "" + tail == tail;
    var rest := ", " + (Entry(DELTA, delta, DEGREES) + (", " + (Entry(LEVEL, level, "") + ".")));
    Found(date, status, "", tail, Format(date, status, temp, delta, level), WITH, Decimal(temp), DEGREES, rest);
  }

  lemma DeltaFound(date: string, status: string, temp: nat, delta: nat, level: nat)
    requires CanonicalDate(date) && StatusText(status)
    ensures FirstMatch(Format(date, status, temp, delta, level), 0, DELTA, DEGREES) == Entry(DELTA, delta, DEGREES)
  {
    hide Decimal, CanonicalDate, StatusText;
    var rest := ", " + (Entry(LEVEL, level, "") + ".");
    var tail := Entry(DELTA, delta, DEGREES) + rest;
    var middle := Entry(WITH, temp, DEGREES) + ", ";
    assert middle + tail == Entries(temp, delta, level);
    Found(date, status, middle, tail, Format(date, status, temp, delta, level), DELTA, Decimal(delta), DEGREES, rest);
  }

  lemma LevelFound(date: string, status: string, temp: nat, delta: nat, level: nat)
    requires CanonicalDate(date) && StatusText(status)
    ensures FirstMatch(Format(date, status, temp, delta, level), 0, LEVEL, "") == Entry(LEVEL, level, "")
  {
    hide Decimal, CanonicalDate, StatusText;
    var tail := Entry(LEVEL, level, "") + ".";
    var middle1 := Entry(WITH, temp, DEGREES) + ", ";
    var middle2 := Entry(DELTA, delta, DEGREES) + ", ";
    RegroupEntries(Entry(WITH, temp, DEGREES), ", ", Entry(DELTA, delta, DEGREES), ", ", tail);
    Found(date, status, middle1 + middle2, tail, Format(date, status, temp, delta, level), LEVEL, Decimal(level), "",
          ".");
  }

  lemma RegroupEntries(a: string, b: string, c: string, d: string, e: string)
    ensures a + (b + (c + (d + e))) == ((a + b) + (c + d)) + e
  {
  }

  lemma Found(date: string, status: string, middle: string, tail: string, line: string,
              marker: string, digits: string, suffix: string, rest: string)
    requires CanonicalDate(date) && StatusText(status)
    requires line == date + status + (middle + tail) && tail == marker + digits + suffix + rest
    requires marker == WITH || marker == DELTA || marker == LEVEL
    requires middle + tail != "" && (middle + tail)[0] == WITH[0]
    requires forall i :: 0 <= i < |middle| ==> middle[i] != marker[0]
    requires AllDigits(digits) && ((suffix + rest) != "" ==> !IsDigit((suffix + rest)[0]))
    ensures FirstMatch(line, 0, marker, suffix) == marker + digits + suffix
  {
    NoMarkerBefore(date, status, middle, tail, marker);
    var pos := |date| + |status| + |middle|;
    assert line[pos..] == tail;
    MatchFound(line, 0, pos, marker, digits, suffix, rest);
  }

  /** What the code makes of the level: two digits survive, three are lost with the line, and of more
    the last three are cut off. */
  function LevelRead(level: nat): Option<int> {
    if level < 100 then Some(level)
    else if level < 1000 || level / 1000 > INT_MAX then None
    else Some(level / 1000)
  }

  lemma LevelCut(level: nat)
    requires |Decimal(level)| + |LEVEL| < SIZE_MODULUS
    ensures var text := CutOut(Entry(LEVEL, level, ""), LEVEL, 12);
      AllDigits(text) && Stoi(text) == LevelRead(level)
  {
    DecimalLength(level);
    LevelSubstr(Decimal(level));
    ValueOfDecimal(level);
    ValueOfDecimal(level / 1000);
  }

  lemma LevelSubstr(digits: string)
    requires |digits| + |LEVEL| < SIZE_MODULUS
    ensures CutOut(LEVEL + digits + "", LEVEL, 12) ==
      if |digits| <= 2 then digits else digits[..|digits| - 3]
  {
    var m := LEVEL + digits + "";
    assert m[9..] == digits;
    assert |digits| <= 2 ==> MinusSize(|m|, 12) >= |digits|;
    assert |digits| >= 3 ==> m[9..9 + |digits| - 3] == digits[..|digits| - 3];
  }

  lemma NumberCut(marker: string, n: nat)
    requires |marker| + |Decimal(n)| + |DEGREES| < SIZE_MODULUS
    ensures var text := CutOut(Entry(marker, n, DEGREES), marker, |marker| + |DEGREES|);
      text == Decimal(n) && Stoi(text) == if n <= INT_MAX then Some(n) else None
  {
    ValueOfDecimal(n);
    NumberSubstr(marker, Decimal(n));
  }

  lemma NumberSubstr(marker: string, digits: string)
    requires |marker| + |digits| + |DEGREES| < SIZE_MODULUS
    ensures CutOut(marker + digits + DEGREES, marker, |marker| + |DEGREES|) == digits
  {
    var m := marker + digits + DEGREES;
    assert m[|marker|..|marker| + |digits|] == digits;
  }

  lemma DateFound(date: string, status: string, temp: nat, delta: nat, level: nat)
    requires CanonicalDate(date) && StatusText(status)
    ensures var line := Format(date, status, temp, delta, level);
      DateLength(line) == Some(|date|) && line[..|date|] == date
  {
    hide Decimal, DateLength;
    var rest := status + Entries(temp, delta, level);
    assert Format(date, status, temp, delta, level) == date + rest;
    assert status == "" ==> rest[0] == WITH[0];
    DateStands(date, rest);
  }

  /** What becomes of a formatted line, for all dates and numbers. */
  lemma ExtractFormatted(d: Date, status: string, temp: nat, delta: nat, level: nat)
    requires ValidDate(d) && StatusText(status)
    requires |Format(DateText(d), status, temp, delta, level)| < SIZE_MODULUS
    ensures Extract(Format(DateText(d), status, temp, delta, level)) ==
      if temp > INT_MAX || delta > INT_MAX || LevelRead(level).None? then Skip
      else Point(TempDataPoint(DateText(d), temp, delta, LevelRead(level).value))
  {
    hide Decimal, CanonicalDate, DateLength, FirstMatch, CutOut, Stoi, Value, DateText, ValidDate, StatusText;
    var date := DateText(d);
    DateTextIsCanonical(d);
    TempFound(date, status, temp, delta, level);
    DeltaFound(date, status, temp, delta, level);
    LevelFound(date, status, temp, delta, level);
    DateFound(date, status, temp, delta, level);
    NumberCut(WITH, temp);
    NumberCut(DELTA, delta);
    LevelCut(level);
  }

  /** The line gives back exactly the values it was written from if and only if temperature and delta fit
    an `int` and the level has at most two digits. */
  lemma LineRoundTrip(d: Date, status: string, temp: nat, delta: nat, level: nat)
    requires ValidDate(d) && StatusText(status)
    requires |Format(DateText(d), status, temp, delta, level)| < SIZE_MODULUS
    ensures Extract(Format(DateText(d), status, temp, delta, level))
        == Point(TempDataPoint(DateText(d), temp, delta, level))
      <==> temp <= INT_MAX && delta <= INT_MAX && level < 100
  {
    ExtractFormatted(d, status, temp, delta, level);
  }

  // ----- lines that are not well-formed -----

  /** Somewhere in the line there are the marker, digits or none, and the suffix. */
  ghost predicate Occurs(line: string, marker: string, suffix: string) {
    exists i, digits :: 0 <= i <= |line| && AllDigits(digits) && marker + digits + suffix <= line[i..]
  }

  lemma MatchOccurs(line: string, i: nat, marker: string, suffix: string)
    requires i <= |line| && MatchAt(line, i, marker, suffix).Some?
    ensures Occurs(line, marker, suffix)
  {
    var n := DigitRun(line, i + |marker|);
    var digits := line[i + |marker|..i + |marker| + n];
    assert marker + digits + suffix == line[i..i + |marker| + n + |suffix|];
    assert marker + digits + suffix <= line[i..];
  }

  lemma OccurrenceMatches(line: string, i: nat, digits: string, marker: string, suffix: string)
    requires i <= |line| && AllDigits(digits) && marker + digits + suffix <= line[i..]
    requires suffix != "" ==> !IsDigit(suffix[0])
    ensures MatchAt(line, i, marker, suffix).Some?
  {
    var m := marker + digits + suffix;
    assert forall k :: 0 <= k < |m| ==> line[i + k] == line[i..][k] == m[k];
    if suffix != "" {
      assert forall k :: i + |marker| <= k < i + |marker| + |digits| ==> line[k] == digits[k - i - |marker|];
      assert line[i + |marker| + |digits|] == suffix[0];
      DigitRunIs(line, i + |marker|, |digits|);
      assert forall k :: 0 <= k < |suffix| ==> line[i + |marker| + |digits| + k] == suffix[k];
    }
  }

  lemma {:induction false} FirstMatchIfAny(line: string, i: nat, k: nat, marker: string, suffix: string)
    requires i <= k <= |line| && MatchAt(line, k, marker, suffix).Some? && marker != ""
    ensures FirstMatch(line, i, marker, suffix) != ""
    decreases k - i
  {
    if MatchAt(line, i, marker, suffix).None? {
      FirstMatchIfAny(line, i + 1, k, marker, suffix);
    }
  }

  lemma {:induction false} FirstMatchIsMatch(line: string, i: nat, marker: string, suffix: string)
    requires i <= |line| && FirstMatch(line, i, marker, suffix) != ""
    ensures Occurs(line, marker, suffix)
    decreases |line| - i
  {
    if MatchAt(line, i, marker, suffix).Some? {
      MatchOccurs(line, i, marker, suffix);
    } else {
      FirstMatchIsMatch(line, i + 1, marker, suffix);
    }
  }

  lemma FoundIfOccurs(line: string, marker: string, suffix: string)
    requires marker != "" && (suffix != "" ==> !IsDigit(suffix[0]))
    ensures FirstMatch(line, 0, marker, suffix) != "" <==> Occurs(line, marker, suffix)
  {
    hide FirstMatch, MatchAt;
    if FirstMatch(line, 0, marker, suffix) != "" {
      FirstMatchIsMatch(line, 0, marker, suffix);
    }
    if Occurs(line, marker, suffix) {
      var i, digits :| 0 <= i <= |line| && AllDigits(digits) && marker + digits + suffix <= line[i..];
      OccurrenceMatches(line, i, digits, marker, suffix);
      FirstMatchIfAny(line, 0, i, marker, suffix);
    }
  }

  /** The leftmost number behind the marker fits an `int`. */
  predicate Usable(line: string, marker: string, suffix: string, cut: nat)
    requires |line| < SIZE_MODULUS && marker != ""
    requires cut == |marker| + |suffix| || (suffix == "" && |marker| <= cut < SIZE_MODULUS)
  {
    var n := NumberAfter(line, marker, suffix, cut);
    n.Some? && n.value.Some?
  }

  /** For every line: without a date it is skipped. Else an exception escapes exactly if one of the three
    numbers is missing and those before it can be used, and there is a data point exactly if all three
    can be used. */
  lemma ExtractExactly(line: string)
    requires |line| < SIZE_MODULUS
    ensures var dated := exists d :: ValidDate(d) && DateText(d) <= line;
      var temp, delta := Usable(line, WITH, DEGREES, 8), Usable(line, DELTA, DEGREES, 5);
      && (Extract(line).Throws? <==>
            dated && (|| !Occurs(line, WITH, DEGREES)
                      || (temp && !Occurs(line, DELTA, DEGREES))
                      || (temp && delta && !Occurs(line, LEVEL, ""))))
      && (Extract(line).Point? <==> dated && temp && delta && Usable(line, LEVEL, "", 12))
  {
    DateLengthIsLongest(line);
    hide DateLength, DateText, ValidDate, FirstMatch, Occurs, CutOut, Stoi;
    FoundIfOccurs(line, WITH, DEGREES);
    FoundIfOccurs(line, DELTA, DEGREES);
    FoundIfOccurs(line, LEVEL, "");
  }
}
