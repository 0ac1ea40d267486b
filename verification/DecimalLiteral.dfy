/** argparse's test for negative numbers: a hand-written machine of labels and gotos that must
  accept exactly the grammar written above it. */
module DecimalLiteral {
  import opened Common

  // ----- the grammar -----

  ghost predicate DigitSequence(s: string) {
    s != "" && forall i :: 0 <= i < |s| ==> IsDigit(s[i])
  }

  ghost predicate PostE(s: string) {
    DigitSequence(s) || (s != "" && (s[0] == '+' || s[0] == '-') && DigitSequence(s[1..]))
  }

  ghost predicate ExponentPart(s: string) {
    s != "" && (s[0] == 'e' || s[0] == 'E') && PostE(s[1..])
  }

  ghost predicate ExponentPartOpt(s: string) {
    s == "" || ExponentPart(s)
  }

  ghost predicate PostDecimalPoint(s: string) {
    exists k :: 0 <= k <= |s| && DigitSequence(s[..k]) && ExponentPartOpt(s[k..])
  }

  ghost predicate FractionalPart(s: string) {
    s != "" && s[0] == '.' && PostDecimalPoint(s[1..])
  }

  /** What may follow an integer-part. */
  ghost predicate AfterIntegerPart(s: string) {
    || FractionalPart(s)
    || (s != "" && s[0] == '.' && ExponentPartOpt(s[1..]))
    || ExponentPart(s)
  }

  ghost predicate Literal(s: string) {
    || s == "0"
    || (DigitSequence(s) && s[0] != '0')
    || FractionalPart(s)
    || WithIntegerPart(s)
  }

  ghost predicate WithIntegerPart(s: string) {
    exists k :: 0 <= k <= |s| && DigitSequence(s[..k]) && AfterIntegerPart(s[k..])
  }

  // ----- maximal munch -----

  /** How many digits a string starts with. */
  ghost function LeadingDigits(s: string): (n: nat)
    ensures n <= |s|
    ensures forall i :: 0 <= i < n ==> IsDigit(s[i])
    ensures n < |s| ==> !IsDigit(s[n])
  {
    if s == "" || !IsDigit(s[0]) then 0 else 1 + LeadingDigits(s[1..])
  }

  /** No digit can start what follows a digit sequence, so only the longest one can be right. */
  lemma OnlyLongestMunch(s: string, k: nat)
    requires k <= |s| && DigitSequence(s[..k])
    requires k < |s| ==> !IsDigit(s[k])
    ensures k == LeadingDigits(s)
  {
    assert forall i :: 0 <= i < k ==> IsDigit(s[..k][i]) && s[..k][i] == s[i];
  }

  lemma PostDecimalPointMunch(s: string)
    ensures PostDecimalPoint(s) <==> LeadingDigits(s) > 0 && ExponentPartOpt(s[LeadingDigits(s)..])
  {
    if PostDecimalPoint(s) {
      var k :| 0 <= k <= |s| && DigitSequence(s[..k]) && ExponentPartOpt(s[k..]);
      assert k < |s| ==> s[k..][0] == s[k];
      OnlyLongestMunch(s, k);
    }
    var n := LeadingDigits(s);
    if n > 0 && ExponentPartOpt(s[n..]) {
      assert DigitSequence(s[..n]);
    }
  }

  lemma IntegerPartMunch(s: string)
    ensures WithIntegerPart(s) <==> LeadingDigits(s) > 0 && AfterIntegerPart(s[LeadingDigits(s)..])
  {
    if WithIntegerPart(s) {
      var k :| 0 <= k <= |s| && DigitSequence(s[..k]) && AfterIntegerPart(s[k..]);
      assert s[k..][0] == s[k];
      OnlyLongestMunch(s, k);
    }
    var n := LeadingDigits(s);
    if n > 0 && AfterIntegerPart(s[n..]) {
      assert DigitSequence(s[..n]);
    }
  }

  lemma DigitSequenceMunch(s: string)
    ensures DigitSequence(s) <==> LeadingDigits(s) == |s| && s != ""
  {
  }

  /** The productions that a first character leaves possible. */
  lemma FirstCharacter(s: string)
    ensures s == "" ==> !Literal(s)
    ensures s != "" && s[0] == '0' && s != "0" ==>
      (Literal(s) <==> AfterIntegerPart(s[1..][LeadingDigits(s[1..])..]))
    ensures s != "" && '1' <= s[0] <= '9' ==>
      (Literal(s) <==> LeadingDigits(s) == |s| || AfterIntegerPart(s[LeadingDigits(s)..]))
    ensures s != "" && s[0] == '.' ==> (Literal(s) <==> PostDecimalPoint(s[1..]))
    ensures s != "" && !IsDigit(s[0]) && s[0] != '.' ==> !Literal(s)
  {
    IntegerPartMunch(s);
    DigitSequenceMunch(s);
    if s != "" && s[0] == '0' {
      assert s[1..][LeadingDigits(s[1..])..] == s[LeadingDigits(s)..];
    }
  }

  /** A point behind the integer part starts a fractional part exactly when a digit follows. */
  lemma PointAfterIntegerPart(s: string)
    requires s != "" && s[0] == '.'
    ensures AfterIntegerPart(s) <==> if DigitAhead(s[1..]) then PostDecimalPoint(s[1..]) else ExponentPartOpt(s[1..])
  {
    PostDecimalPointMunch(s[1..]);
  }

  lemma PostEMunch(s: string)
    ensures var digits := if s != "" && (s[0] == '-' || s[0] == '+') then s[1..] else s;
      PostE(s) <==> LeadingDigits(digits) == |digits| && digits != ""
  {
    DigitSequenceMunch(s);
    if s != "" {
      DigitSequenceMunch(s[1..]);
    }
  }

  // ----- the machine -----

  datatype Label = IntegerPart | IntegerPartConsumed | PostDecimalPointLabel | ExponentPartOptLabel | PostELabel

  /** `lookahead`: the first character, or none at the end of the view. */
  datatype Lookahead = Eof | Char(c: char)

  function Look(s: string): Lookahead {
    if s == "" then Eof else Char(s[0])
  }

  predicate DigitAhead(s: string) {
    s != "" && IsDigit(s[0])
  }

  /** What the rest of the view must be for the machine to accept from a label. At `IntegerPart` one
    digit was read already and more may follow. */
  ghost predicate AcceptedAt(at: Label, s: string) {
    match at
    case IntegerPart => AfterIntegerPart(s[LeadingDigits(s)..])
    case IntegerPartConsumed => AfterIntegerPart(s)
    case PostDecimalPointLabel => PostDecimalPoint(s)
    case ExponentPartOptLabel => ExponentPartOpt(s)
    case PostELabel => PostE(s)
  }

  function Rank(at: Label): nat {
    match at
    case IntegerPart => 4
    case IntegerPartConsumed => 3
    case PostDecimalPointLabel => 2
    case ExponentPartOptLabel => 1
    case PostELabel => 0
  }

  method ConsumeDigits(s: string) returns (r: string)
    ensures r == s[LeadingDigits(s)..]
  {
    var i := 0;
    while i < |s| && IsDigit(s[i])
      invariant 0 <= i <= |s|
      invariant LeadingDigits(s) == i + LeadingDigits(s[i..])
    {
      assert s[i..][1..] == s[i+1..];
      i := i + 1;
    }
    return s[i..];
  }

  method IsDecimalLiteral(s0: string) returns (accepted: bool)
    ensures accepted <==> Literal(s0)
  {
    var s := s0;
    var at := IntegerPart;
    FirstCharacter(s);
    match Look(s) {
      case Eof =>
        return false;
      case Char(c) =>
        if c == '0' {
          s := s[1..];
          if s == "" {
            return true;
          }
        } else if '1' <= c <= '9' {
          s := ConsumeDigits(s);
          if s == "" {
            return true;
          }
          at := IntegerPartConsumed;
        } else if c == '.' {
          s := s[1..];
          at := PostDecimalPointLabel;
        } else {
          return false;
        }
    }

    while true
      invariant AcceptedAt(at, s) <==> Literal(s0)
      decreases |s|, Rank(at)
    {
      match at {
        case IntegerPart =>
          s := ConsumeDigits(s);
          at := IntegerPartConsumed;
        case IntegerPartConsumed =>
          if Look(s) == Char('.') {
            PointAfterIntegerPart(s);
            s := s[1..];
            at := if DigitAhead(s) then PostDecimalPointLabel else ExponentPartOptLabel;
          } else if Look(s) == Char('e') || Look(s) == Char('E') {
            s := s[1..];
            at := PostELabel;
          } else {
            return false;
          }
        case PostDecimalPointLabel =>
          PostDecimalPointMunch(s);
          if !DigitAhead(s) {
            return false;
          }
          s := ConsumeDigits(s);
          at := ExponentPartOptLabel;
        case ExponentPartOptLabel =>
          if s == "" {
            return true;
          } else if Look(s) == Char('e') || Look(s) == Char('E') {
            s := s[1..];
            at := PostELabel;
          } else {
            return false;
          }
        case PostELabel =>
          PostEMunch(s);
          if Look(s) == Char('-') || Look(s) == Char('+') {
            s := s[1..];
          }
          if !DigitAhead(s) {
            return false;
          }
          s := ConsumeDigits(s);
          return s == "";
      }
    }
  }

  // ----- positional and optional tokens -----

  /** A token that can be a value: it does not start with a dash, or it is a lone dash or a
    negative number. */
  ghost predicate Positional(s: string) {
    s == "" || s[0] != '-' || s == "-" || Literal(s[1..])
  }

  method IsPositional(name: string) returns (r: bool)
    ensures r <==> Positional(name)
  {
    match Look(name) {
      case Eof => return true;
      case Char(c) =>
        if c != '-' {
          return true;
        }
        var rest := name[1..];
        if rest == "" {
          assert name == "-";
          return true;
        }
        r := IsDecimalLiteral(rest);
    }
  }

  /** A dash with two characters that are not digits right behind it is no number. */
  lemma NoNumberWithoutDigits(s: string)
    requires s != "" && !IsDigit(s[0]) && (|s| > 1 ==> !IsDigit(s[1]))
    ensures !Literal(s)
  {
    FirstCharacter(s);
    PostDecimalPointMunch(s[1..]);
  }
}
