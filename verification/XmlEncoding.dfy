/** The escaping of text and attribute values in doctest's XML output. Strings are sequences of
  bytes, each a `char` below 256. */
module XmlEncoding {
  import opened Common


  function Byte(s: string, i: nat): int
    requires i < |s|
  {
    s[i] as int
  }

  // ----- the encoder -----

  /** The length of the group that a lead byte announces. */
  function TrailingBytes(c: int): nat
    requires 0xC0 <= c < 0xF8
  {
    if c < 0xE0 then 2 else if c < 0xF0 then 3 else 4
  }

  /** The payload bits of a lead byte. */
  function HeaderValue(c: int): int
    requires 0xC0 <= c < 0xF8
  {
    if c < 0xE0 then c % 0x20 else if c < 0xF0 then c % 0x10 else c % 0x08
  }

  predicate Continuation(c: int) {
    0x80 <= c < 0xC0
  }

  /** The value collected from the lead byte at `idx` and the first n - 1 bytes behind it. */
  function CollectedValue(s: string, idx: nat, n: nat): int
    requires 1 <= n && idx + n <= |s| && 0xC0 <= Byte(s, idx) < 0xF8
  {
    if n == 1 then HeaderValue(Byte(s, idx))
    else CollectedValue(s, idx, n - 1) * 0x40 + Byte(s, idx + n - 1) % 0x40
  }

  predicate AllContinuations(s: string, idx: nat, n: nat)
    requires 1 <= n && idx + n <= |s|
  {
    n == 1 || (AllContinuations(s, idx, n - 1) && Continuation(Byte(s, idx + n - 1)))
  }

  /** The length of the multi-byte group the encoder accepts at `idx`, or 0 if it accepts none. */
  function GroupLength(s: string, idx: nat): (n: nat)
    requires idx < |s|
    ensures n == 0 || (2 <= n <= 4 && idx + n <= |s|)
  {
    var c := Byte(s, idx);
    if c < 0xC0 || c >= 0xF8 then 0
    else
      var n := TrailingBytes(c);
      if idx + n - 1 >= |s| then 0
      else
        var valid := AllContinuations(s, idx, n);
        var value := CollectedValue(s, idx, n);
        if || !valid
           || value < 0x80
           || (value < 0x800 && n > 2)
           || (0x800 < value < 0x10000 && n > 3)
           || value >= 0x110000
        then 0
        else n
  }

  const DIGITS := "0123456789ABCDEF"

  /** Two upper-case hexadecimal digits behind `\x`. */
  function HexEscape(c: int): string
    requires 0 <= c
  {
    ['\\', 'x', DIGITS[c / 16 % 16], DIGITS[c % 16]]
  }

  predicate PlainAscii(c: int) {
    0x09 <= c <= 0x0D || 0x20 <= c < 0x7F
  }

  predicate MustEscapeGt(s: string, idx: nat)
    requires idx < |s|
  {
    idx > 2 && s[idx - 1] == ']' && s[idx - 2] == ']'
  }

  /** What the encoder writes for the byte at `idx`, and how many bytes that covers. */
  function Piece(s: string, idx: nat, forAttributes: bool): (p: (string, nat))
    requires idx < |s|
    ensures 1 <= p.1 && idx + p.1 <= |s|
  {
    var c := s[idx];
    if c == '<' then ("&lt;", 1)
    else if c == '&' then ("&amp;", 1)
    else if c == '>' then (if MustEscapeGt(s, idx) then "&gt;" else ">", 1)
    else if c == '"' then (if forAttributes then "&quot;" else "\"", 1)
    else if PlainAscii(c as int) then ([c], 1)
    else
      var n := GroupLength(s, idx);
      if n == 0 then (HexEscape(c as int), 1) else (s[idx..idx + n], n)
  }

  function Encode(s: string, idx: nat, forAttributes: bool): string
    requires idx <= |s|
    decreases |s| - idx
  {
    if idx == |s| then ""
    else
      var (text, n) := Piece(s, idx, forAttributes);
      text + Encode(s, idx + n, forAttributes)
  }

  /** Checks the bytes behind a lead byte and collects their value. */
  method CollectGroup(s: string, idx: nat, n: nat) returns (valid: bool, value: int)
    requires 2 <= n && idx + n <= |s| && 0xC0 <= Byte(s, idx) < 0xF8
    ensures valid == AllContinuations(s, idx, n)
    ensures value == CollectedValue(s, idx, n)
  {
    valid, value := true, HeaderValue(Byte(s, idx));
    for k := 1 to n
      invariant valid == AllContinuations(s, idx, k)
      invariant value == CollectedValue(s, idx, k)
    {
      var nc := Byte(s, idx + k);
      valid := valid && Continuation(nc);
      value := value * 0x40 + nc % 0x40;
    }
  }

  /** The part of `encodeTo` that looks at bytes from 0x80 on: how many bytes to copy, 0 to escape. */
  method AcceptGroup(s: string, idx: nat) returns (n: nat)
    requires idx < |s|
    ensures n == GroupLength(s, idx)
  {
    var c := Byte(s, idx);
    if c < 0xC0 || c >= 0xF8 {
      return 0;
    }
    var encBytes := TrailingBytes(c);
    if idx + encBytes - 1 >= |s| {
      return 0;
    }
    var valid, value := CollectGroup(s, idx, encBytes);
    if || !valid
       || value < 0x80
       || (value < 0x800 && encBytes > 2)
       || (0x800 < value < 0x10000 && encBytes > 3)
       || value >= 0x110000
    {
      return 0;
    }
    return encBytes;
  }

  /** `XmlEncode::encodeTo`. */
  method EncodeTo(s: string, forAttributes: bool) returns (os: string)
    ensures os == Encode(s, 0, forAttributes)
  {
    hide Encode, GroupLength;
    os := "";
    var idx := 0;
    assert "" + Encode(s, 0, forAttributes) == Encode(s, 0, forAttributes);
    while idx < |s|
      invariant 0 <= idx <= |s|
      invariant Encode(s, 0, forAttributes) == os + Encode(s, idx, forAttributes)
    {
      var c := s[idx];
      var code := c as int;
      var text, n := [c], 1;
      if c == '<' {
        text := "&lt;";
      } else if c == '&' {
        text := "&amp;";
      } else if c == '>' {
        if MustEscapeGt(s, idx) {
          text := "&gt;";
        }
      } else if c == '"' {
        if forAttributes {
          text := "&quot;";
        }
      } else if code < 0x09 || 0x0D < code < 0x20 || code == 0x7F {
        AsciiIsNoGroup(s, idx);
        text := HexEscape(code);
      } else if code >= 0x7F {
        var encBytes := AcceptGroup(s, idx);
        if encBytes == 0 {
          text := HexEscape(code);
        } else {
          text, n := s[idx..idx + encBytes], encBytes;
        }
      }
      EncodeStep(s, idx, forAttributes, os);
      assert (text, n) == Piece(s, idx, forAttributes);
      os := os + text;
      idx := idx + n;
    }
    EncodeEnd(s, forAttributes);
  }

  lemma EncodeStep(s: string, idx: nat, forAttributes: bool, os: string)
    requires idx < |s|
    ensures var (text, n) := Piece(s, idx, forAttributes);
      os + Encode(s, idx, forAttributes) == (os + text) + Encode(s, idx + n, forAttributes)
  {
    var (text, n) := Piece(s, idx, forAttributes);
    Associates(os, text, Encode(s, idx + n, forAttributes));
  }

  lemma EncodeEnd(s: string, forAttributes: bool)
    ensures forall os: string :: os + Encode(s, |s|, forAttributes) == os
  {
  }

  lemma AsciiIsNoGroup(s: string, idx: nat)
    requires idx < |s| && Byte(s, idx) < 0xC0
    ensures GroupLength(s, idx) == 0
  {
  }

  // ----- the groups it accepts, as a table -----

  predicate Between(c: char, lo: int, hi: int) {
    lo <= c as int <= hi
  }

  predicate Tail(c: char) {
    Between(c, 0x80, 0xBF)
  }

  /** Section 4 of RFC 3629 without its exclusion of surrogates, and one four-byte form of U+0800. */
  predicate Utf8Group(g: string) {
    || (|g| == 2 && Between(g[0], 0xC2, 0xDF) && Tail(g[1]))
    || (|g| == 3 && Tail(g[2]) &&
        (|| (g[0] as int == 0xE0 && Between(g[1], 0xA0, 0xBF))
         || (Between(g[0], 0xE1, 0xEF) && Tail(g[1]))))
    || (|g| == 4 && Tail(g[2]) && Tail(g[3]) &&
        (|| (g[0] as int == 0xF0 && Between(g[1], 0x90, 0xBF))
         || (Between(g[0], 0xF1, 0xF3) && Tail(g[1]))
         || (g[0] as int == 0xF4 && Between(g[1], 0x80, 0x8F))
         || (g[0] as int == 0xF0 && g[1] as int == 0x80 && g[2] as int == 0xA0 && g[3] as int == 0x80)))
  }

  lemma OpenGroup(s: string, idx: nat, n: nat)
    requires 2 <= n && idx + n <= |s| && 0xC0 <= Byte(s, idx) < 0xF8
    ensures AllContinuations(s, idx, n) <==>
      AllContinuations(s, idx, n - 1) && Continuation(Byte(s, idx + n - 1))
    ensures CollectedValue(s, idx, n) == CollectedValue(s, idx, n - 1) * 0x40 + Byte(s, idx + n - 1) % 0x40
    ensures AllContinuations(s, idx, 1) && CollectedValue(s, idx, 1) == HeaderValue(Byte(s, idx))
  {
  }

  lemma GroupOfTwo(s: string, idx: nat)
    requires idx + 2 <= |s| && 0xC0 <= Byte(s, idx) < 0xE0
    ensures GroupLength(s, idx) == if Utf8Group(s[idx..idx + 2]) then 2 else 0
  {
    OpenGroup(s, idx, 2);
  }

  lemma GroupOfThree(s: string, idx: nat)
    requires idx + 3 <= |s| && 0xE0 <= Byte(s, idx) < 0xF0
    ensures GroupLength(s, idx) == if Utf8Group(s[idx..idx + 3]) then 3 else 0
  {
    OpenGroup(s, idx, 2);
    OpenGroup(s, idx, 3);
  }

  lemma GroupOfFour(s: string, idx: nat)
    requires idx + 4 <= |s| && 0xF0 <= Byte(s, idx) < 0xF8
    ensures GroupLength(s, idx) == if Utf8Group(s[idx..idx + 4]) then 4 else 0
  {
    hide AllContinuations, CollectedValue;
    OpenGroup(s, idx, 2);
    OpenGroup(s, idx, 3);
    OpenGroup(s, idx, 4);
  }

  /** The arithmetic of the encoder and the table agree: it accepts a group exactly when the bytes
    ahead form one. */
  lemma GroupsAreTheTable(s: string, idx: nat, n: nat)
    requires idx < |s|
    ensures n > 0 ==> (GroupLength(s, idx) == n <==> idx + n <= |s| && Utf8Group(s[idx..idx + n]))
  {
    var c := Byte(s, idx);
    if 0xC0 <= c < 0xF8 && idx + TrailingBytes(c) <= |s| {
      if c < 0xE0 {
        GroupOfTwo(s, idx);
      } else if c < 0xF0 {
        GroupOfThree(s, idx);
      } else {
        GroupOfFour(s, idx);
      }
    }
  }

  // ----- reading the output back -----

  const ENTITIES := ["&lt;", "&amp;", "&gt;", "&quot;"]

  /** Replaces the four entities by what they stand for. */
  function Decode(o: string): (r: string)
    decreases |o|
  {
    if o == "" then ""
    else if "&lt;" <= o then "<" + Decode(o[4..])
    else if "&amp;" <= o then "&" + Decode(o[5..])
    else if "&gt;" <= o then ">" + Decode(o[4..])
    else if "&quot;" <= o then "\"" + Decode(o[6..])
    else [o[0]] + Decode(o[1..])
  }

  lemma {:induction false} DecodeLiteral(p: string, rest: string)
    requires '&' !in p
    ensures Decode(p + rest) == p + Decode(rest)
  {
    if p == "" {
      assert p + rest == rest;
    } else {
      var o := p + rest;
      assert o[0] == p[0] != '&';
      assert o[1..] == p[1..] + rest;
      DecodeLiteral(p[1..], rest);
      Associates([p[0]], p[1..], Decode(rest));
      assert [p[0]] + p[1..] == p;
    }
  }

  /** What an entity stands for. */
  function Meaning(e: string): string
    requires e in ENTITIES
  {
    if e == "&lt;" then "<" else if e == "&amp;" then "&" else if e == "&gt;" then ">" else "\""
  }

  lemma DecodeEntity(e: string, rest: string)
    requires e in ENTITIES
    ensures Decode(e + rest) == Meaning(e) + Decode(rest)
  {
    var o := e + rest;
    assert o[..|e|] == e && o[|e|..] == rest;
    assert forall f :: f in ENTITIES && f <= o ==> f[..3] == o[..3];
    assert e[1] == o[1] && e[2] == o[2];
  }

  /** A byte is written as a hex escape. */
  predicate Escaped(s: string, idx: nat)
    requires idx < |s|
  {
    s[idx] !in "<&>\"" && !PlainAscii(s[idx] as int) && GroupLength(s, idx) == 0
  }

  /** The four kinds of pieces: an entity, a hex escape, a plain character, a multi-byte group. */
  ghost predicate PieceKind(s: string, idx: nat, forAttributes: bool, text: string, n: nat)
    requires idx < |s| && idx + n <= |s|
  {
    if text in ENTITIES then n == 1 && Meaning(text) == [s[idx]] && !Escaped(s, idx)
    else if Escaped(s, idx) then n == 1 && text == HexEscape(Byte(s, idx))
    else
      && text == s[idx..idx + n]
      && (|| (n == 1 && PlainAscii(Byte(s, idx)) && s[idx] != '<' && s[idx] != '&' && (forAttributes ==> s[idx] != '"'))
          || Utf8Group(text))
  }

  lemma PieceIsOfAKind(s: string, idx: nat, forAttributes: bool)
    requires idx < |s|
    ensures var (text, n) := Piece(s, idx, forAttributes);
      PieceKind(s, idx, forAttributes, text, n)
  {
    var g := GroupLength(s, idx);
    if g > 0 {
      GroupsAreTheTable(s, idx, g);
    }
    assert s[idx..idx + 1] == [s[idx]];
  }

  function HexCount(s: string, idx: nat, forAttributes: bool): nat
    requires idx <= |s|
    decreases |s| - idx
  {
    if idx == |s| then 0
    else (if Escaped(s, idx) then 1 else 0) + HexCount(s, idx + Piece(s, idx, forAttributes).1, forAttributes)
  }

  /** What one piece decodes to. */
  lemma DecodePiece(s: string, idx: nat, forAttributes: bool, rest: string)
    requires idx < |s|
    ensures var (text, n) := Piece(s, idx, forAttributes);
      Decode(text + rest) ==
        (if Escaped(s, idx) then HexEscape(Byte(s, idx)) else s[idx..idx + n]) + Decode(rest)
  {
    PieceIsOfAKind(s, idx, forAttributes);
    hide Piece, Escaped, Decode;
    var (text, n) := Piece(s, idx, forAttributes);
    if text in ENTITIES {
      DecodeEntity(text, rest);
      assert s[idx..idx + n] == [s[idx]];
    } else {
      NoAmpersand(text, Byte(s, idx));
      DecodeLiteral(text, rest);
    }
  }

  lemma NoAmpersand(text: string, c: int)
    requires c >= 0 && (Utf8Group(text) || text == HexEscape(c) || (|text| == 1 && text[0] != '&'))
    ensures '&' !in text
  {
  }

  /** Every hex escape makes the decoded text three bytes longer than the input. */
  lemma {:induction false} DecodeEncode(s: string, idx: nat, forAttributes: bool)
    requires idx <= |s|
    ensures |Decode(Encode(s, idx, forAttributes))| == |s| - idx + 3 * HexCount(s, idx, forAttributes)
    ensures HexCount(s, idx, forAttributes) == 0 ==> Decode(Encode(s, idx, forAttributes)) == s[idx..]
    decreases |s| - idx
  {
    hide *;
    if idx < |s| {
      OpenEncode(s, idx, forAttributes);
      var n := Piece(s, idx, forAttributes).1;
      DecodePiece(s, idx, forAttributes, Encode(s, idx + n, forAttributes));
      DecodeEncode(s, idx + n, forAttributes);
      JoinDecoded(s, idx, n, Decode(Encode(s, idx + n, forAttributes)), Escaped(s, idx),
                  HexCount(s, idx + n, forAttributes));
    } else {
      EncodeNothing(s, forAttributes);
    }
  }

  lemma EncodeNothing(s: string, forAttributes: bool)
    ensures Decode(Encode(s, |s|, forAttributes)) == "" == s[|s|..] && HexCount(s, |s|, forAttributes) == 0
  {
  }

  lemma OpenEncode(s: string, idx: nat, forAttributes: bool)
    requires idx < |s|
    ensures var (text, n) := Piece(s, idx, forAttributes);
      && Encode(s, idx, forAttributes) == text + Encode(s, idx + n, forAttributes)
      && HexCount(s, idx, forAttributes) == HexCount(s, idx + n, forAttributes) + (if Escaped(s, idx) then 1 else 0)
      && (Escaped(s, idx) ==> n == 1)
  {
  }

  lemma JoinDecoded(s: string, idx: nat, n: nat, rest: string, escaped: bool, hex: nat)
    requires idx + n <= |s| && |rest| == |s| - (idx + n) + 3 * hex
    requires hex == 0 ==> rest == s[idx + n..]
    requires idx < |s| && (escaped ==> n == 1)
    ensures var whole := (if escaped then HexEscape(Byte(s, idx)) else s[idx..idx + n]) + rest;
      && |whole| == |s| - idx + 3 * (hex + if escaped then 1 else 0)
      && (hex == 0 && !escaped ==> whole == s[idx..])
  {
    assert s[idx..idx + n] + s[idx + n..] == s[idx..];
  }

  /** Text that survives: plain ASCII and well-formed multi-byte groups only. */
  ghost predicate WellFormedText(s: string)
    decreases |s|
  {
    || s == ""
    || (PlainAscii(s[0] as int) && WellFormedText(s[1..]))
    || (|s| >= 2 && Utf8Group(s[..2]) && WellFormedText(s[2..]))
    || (|s| >= 3 && Utf8Group(s[..3]) && WellFormedText(s[3..]))
    || (|s| >= 4 && Utf8Group(s[..4]) && WellFormedText(s[4..]))
  }

  lemma WellFormedStep(s: string, idx: nat)
    requires idx < |s|
    ensures var g := GroupLength(s, idx);
      WellFormedText(s[idx..]) <==>
        if PlainAscii(Byte(s, idx)) then WellFormedText(s[idx + 1..]) else g > 0 && WellFormedText(s[idx + g..])
  {
    var t := s[idx..];
    GroupAhead(s, idx, 2);
    GroupAhead(s, idx, 3);
    GroupAhead(s, idx, 4);
    hide GroupLength, Utf8Group;
    assert t[1..] == s[idx + 1..];
  }

  lemma GroupAhead(s: string, idx: nat, m: nat)
    requires idx < |s| && m >= 2
    ensures var t := s[idx..];
      m <= |t| ==> (Utf8Group(t[..m]) <==> GroupLength(s, idx) == m) && t[m..] == s[idx + m..]
    ensures GroupLength(s, idx) == m ==> m <= |s| - idx && !PlainAscii(Byte(s, idx))
  {
    GroupsAreTheTable(s, idx, m);
    if idx + m <= |s| {
      assert s[idx..][..m] == s[idx..idx + m];
    }
  }

  lemma {:induction false} NoHexIsWellFormed(s: string, idx: nat, forAttributes: bool)
    requires idx <= |s|
    ensures HexCount(s, idx, forAttributes) == 0 <==> WellFormedText(s[idx..])
    decreases |s| - idx
  {
    if idx < |s| {
      WellFormedStep(s, idx);
      hide WellFormedText, GroupLength;
      NoHexIsWellFormed(s, idx + Piece(s, idx, forAttributes).1, forAttributes);
    }
  }

  /** Decoding gives back the input exactly when the input is plain ASCII and well-formed groups. */
  lemma RoundTrip(s: string, forAttributes: bool)
    ensures Decode(Encode(s, 0, forAttributes)) == s <==> WellFormedText(s)
  {
    DecodeEncode(s, 0, forAttributes);
    NoHexIsWellFormed(s, 0, forAttributes);
    assert s[0..] == s;
  }

  // ----- nothing is escaped without need -----

  function HexValue(c: char): int {
    if '0' <= c <= '9' then c as int - '0' as int else c as int - 'A' as int + 10
  }

  /** A hex escape tells its byte. */
  lemma HexTellsByte(c: int)
    requires 0 <= c < 0x100
    ensures var h := HexEscape(c);
      && |h| == 4 && h[..2] == "\\x" && HexValue(h[2]) * 16 + HexValue(h[3]) == c
      && forall i :: 2 <= i < 4 ==> '0' <= h[i] <= '9' || 'A' <= h[i] <= 'F'
  {
    hide HexValue;
    DigitValue(c / 16);
    DigitValue(c % 16);
    assert c / 16 % 16 == c / 16;
  }

  lemma DigitValue(d: int)
    requires 0 <= d < 16
    ensures HexValue(DIGITS[d]) == d && ('0' <= DIGITS[d] <= '9' || 'A' <= DIGITS[d] <= 'F')
  {
    assert d in {0, 1, 2, 3, 4, 5, 6, 7, 8, 9, 10, 11, 12, 13, 14, 15};
  }

  /** A character that must not stand for itself: a quote does so only in attributes, and the end of a
    CDATA section only from the fourth byte on. */
  predicate NeedsEntity(s: string, i: nat, forAttributes: bool)
    requires i < |s|
  {
    || s[i] == '<' || s[i] == '&' || (forAttributes && s[i] == '"')
    || (s[i] == '>' && i > 2 && s[i - 2..i] == "]]")
  }

  ghost predicate NoneNeeded(s: string, idx: nat, forAttributes: bool) {
    forall i :: idx <= i < |s| ==> !NeedsEntity(s, i, forAttributes)
  }

  lemma PieceUnchanged(s: string, idx: nat, forAttributes: bool)
    requires idx < |s|
    ensures var (text, n) := Piece(s, idx, forAttributes);
      && |text| >= n
      && (|text| == n <==> !NeedsEntity(s, idx, forAttributes) && !Escaped(s, idx))
      && (|text| == n ==> text == s[idx..idx + n])
      && forall i :: idx < i < idx + n ==> !NeedsEntity(s, i, forAttributes)
  {
    var g := GroupLength(s, idx);
    if g > 0 {
      GroupsAreTheTable(s, idx, g);
      GroupNeedsNothing(s, idx, g, forAttributes);
    }
    hide GroupLength, Utf8Group;
    assert s[idx..idx + 1] == [s[idx]];
    assert idx > 2 ==> s[idx - 2..idx] == [s[idx - 2], s[idx - 1]];
  }

  lemma GroupNeedsNothing(s: string, idx: nat, g: nat, forAttributes: bool)
    requires idx + g <= |s| && Utf8Group(s[idx..idx + g])
    ensures forall i :: idx <= i < idx + g ==> !NeedsEntity(s, i, forAttributes)
  {
    var t := s[idx..idx + g];
    forall i | idx <= i < idx + g ensures !NeedsEntity(s, i, forAttributes) {
      assert s[i] == t[i - idx] && i - idx in {0, 1, 2, 3};
    }
  }

  lemma {:induction false} EncodeUnchanged(s: string, idx: nat, forAttributes: bool)
    requires idx <= |s|
    ensures var r := Encode(s, idx, forAttributes);
      && |r| >= |s| - idx
      && (|r| == |s| - idx <==> NoneNeeded(s, idx, forAttributes) && HexCount(s, idx, forAttributes) == 0)
      && (|r| == |s| - idx ==> r == s[idx..])
    decreases |s| - idx
  {
    hide Piece, NeedsEntity, Escaped, Encode, HexCount;
    if idx < |s| {
      OpenEncode(s, idx, forAttributes);
      PieceUnchanged(s, idx, forAttributes);
      var (text, n) := Piece(s, idx, forAttributes);
      EncodeUnchanged(s, idx + n, forAttributes);
      NoneNeededStep(s, idx, n, forAttributes);
      assert s[idx..idx + n] + s[idx + n..] == s[idx..];
    } else {
      EncodeNothing(s, forAttributes);
      NothingLeft(s, forAttributes);
    }
  }

  lemma NothingLeft(s: string, forAttributes: bool)
    ensures Encode(s, |s|, forAttributes) == ""
  {
  }

  lemma NoneNeededStep(s: string, idx: nat, n: nat, forAttributes: bool)
    requires 1 <= n && idx + n <= |s| && forall i :: idx < i < idx + n ==> !NeedsEntity(s, i, forAttributes)
    ensures NoneNeeded(s, idx, forAttributes) <==>
      !NeedsEntity(s, idx, forAttributes) && NoneNeeded(s, idx + n, forAttributes)
  {
  }

  /** Text is left as it is exactly when nothing in it needs escaping. */
  lemma UnchangedExactly(s: string, forAttributes: bool)
    ensures Encode(s, 0, forAttributes) == s <==> NoneNeeded(s, 0, forAttributes) && WellFormedText(s)
  {
    EncodeUnchanged(s, 0, forAttributes);
    NoHexIsWellFormed(s, 0, forAttributes);
    assert s[0..] == s;
  }

  // ----- what the output can contain -----

  ghost predicate EntityAt(o: string, i: nat)
    requires i <= |o|
  {
    exists e :: e in ENTITIES && e <= o[i..]
  }

  predicate GroupSpan(o: string, k: nat, n: nat) {
    k + n <= |o| && Utf8Group(o[k..k + n])
  }

  ghost predicate InGroup(o: string, i: nat) {
    exists k: nat, n: nat :: k <= i < k + n && GroupSpan(o, k, n)
  }

  /** A byte of the output that XML can carry where it stands. */
  ghost predicate Harmless(o: string, i: nat, forAttributes: bool)
    requires i < |o|
  {
    && o[i] != '<'
    && (forAttributes ==> o[i] != '"')
    && (PlainAscii(o[i] as int) || InGroup(o, i))
    && (o[i] == '&' ==> EntityAt(o, i))
  }

  ghost predicate AllHarmless(o: string, forAttributes: bool) {
    forall i :: 0 <= i < |o| ==> Harmless(o, i, forAttributes)
  }

  lemma HarmlessConcat(a: string, b: string, forAttributes: bool)
    requires AllHarmless(a, forAttributes) && AllHarmless(b, forAttributes)
    ensures AllHarmless(a + b, forAttributes)
  {
    forall i | 0 <= i < |a + b| ensures Harmless(a + b, i, forAttributes) {
      if i < |a| {
        HarmlessShift("", a, b, i, forAttributes);
        assert "" + a + b == a + b;
      } else {
        HarmlessShift(a, b, "", i - |a|, forAttributes);
        assert a + b + "" == a + b;
      }
    }
  }

  lemma HarmlessShift(a: string, o: string, b: string, i: nat, forAttributes: bool)
    requires i < |o| && Harmless(o, i, forAttributes)
    ensures Harmless(a + o + b, |a| + i, forAttributes)
  {
    var w := a + o + b;
    assert w[|a| + i] == o[i];
    if InGroup(o, i) {
      var k: nat, n: nat :| k <= i < k + n && GroupSpan(o, k, n);
      assert w[|a| + k..|a| + k + n] == o[k..k + n];
      assert GroupSpan(w, |a| + k, n);
    }
    if EntityAt(o, i) {
      var e :| e in ENTITIES && e <= o[i..];
      assert w[|a| + i..] == o[i..] + b;
      assert e <= w[|a| + i..];
    }
  }

  lemma PieceIsHarmless(s: string, idx: nat, forAttributes: bool)
    requires idx < |s|
    ensures AllHarmless(Piece(s, idx, forAttributes).0, forAttributes)
  {
    PieceIsOfAKind(s, idx, forAttributes);
    hide Piece, Escaped, AllHarmless;
    var text := Piece(s, idx, forAttributes).0;
    if text in ENTITIES {
      EntityIsHarmless(text, forAttributes);
    } else if Utf8Group(text) {
      GroupIsHarmless(text, forAttributes);
    } else {
      CharactersAreHarmless(text, Byte(s, idx), forAttributes);
    }
  }

  lemma EntityIsHarmless(e: string, forAttributes: bool)
    requires e in ENTITIES
    ensures AllHarmless(e, forAttributes)
  {
    assert e <= e[0..];
    assert e[0] == '&' && forall i :: 1 <= i < |e| ==> PlainAscii(e[i] as int) && e[i] !in "&<\"";
  }

  lemma GroupIsHarmless(g: string, forAttributes: bool)
    requires Utf8Group(g)
    ensures AllHarmless(g, forAttributes)
  {
    assert g[0..|g|] == g;
    assert GroupSpan(g, 0, |g|);
  }

  lemma CharactersAreHarmless(text: string, c: int, forAttributes: bool)
    requires c >= 0
    requires text == HexEscape(c) ||
      (&& |text| == 1 && PlainAscii(text[0] as int) && text[0] != '<' && text[0] != '&'
       && (forAttributes ==> text[0] != '"'))
    ensures AllHarmless(text, forAttributes)
  {
  }

  /** No markup character, no control byte, and every byte from 0x80 on inside a well-formed group. */
  lemma {:induction false} OutputIsHarmless(s: string, idx: nat, forAttributes: bool)
    requires idx <= |s|
    ensures AllHarmless(Encode(s, idx, forAttributes), forAttributes)
    decreases |s| - idx
  {
    if idx < |s| {
      PieceIsHarmless(s, idx, forAttributes);
      hide AllHarmless;
      OutputIsHarmless(s, idx + Piece(s, idx, forAttributes).1, forAttributes);
      HarmlessConcat(Piece(s, idx, forAttributes).0,
                     Encode(s, idx + Piece(s, idx, forAttributes).1, forAttributes), forAttributes);
    }
  }

  // ----- the end of a CDATA section -----

  predicate CdataEndAt(o: string, p: nat) {
    p + 3 <= |o| && o[p] == ']' && o[p + 1] == ']' && o[p + 2] == '>'
  }

  /** What is known when the encoder has written `o` for the first idx bytes: brackets at the end of
    the output are brackets at the end of the input, and a CDATA end can only be its first three. */
  ghost predicate BracketsFollow(s: string, idx: nat, o: string)
    requires idx <= |s|
  {
    && (idx == 0 ==> o == "")
    && (|o| >= 1 && o[|o| - 1] == ']' ==> idx >= 1 && s[idx - 1] == ']' && (idx == 1 ==> |o| == 1))
    && (|o| >= 2 && o[|o| - 1] == ']' && o[|o| - 2] == ']' ==>
          idx >= 2 && s[idx - 2] == ']' && (idx == 2 ==> |o| == 2))
    && (forall p: nat :: CdataEndAt(o, p) ==> p == 0 && "]]>" <= s)
  }

  lemma PieceBrackets(s: string, idx: nat, forAttributes: bool)
    requires idx < |s|
    ensures var (text, n) := Piece(s, idx, forAttributes);
      && |text| >= 1
      && (']' in text ==> text == "]" && n == 1 && s[idx] == ']')
      && ('>' in text ==> text == ">" && n == 1 && s[idx] == '>' && !MustEscapeGt(s, idx))
  {
    PieceIsOfAKind(s, idx, forAttributes);
    assert Piece(s, idx, forAttributes).0 == ">" ==> !MustEscapeGt(s, idx);
    hide Piece, Escaped;
  }

  lemma BracketsStep(s: string, idx: nat, o: string, forAttributes: bool)
    requires idx < |s| && BracketsFollow(s, idx, o)
    ensures var (text, n) := Piece(s, idx, forAttributes);
      BracketsFollow(s, idx + n, o + text)
  {
    PieceBrackets(s, idx, forAttributes);
    var (text, n) := Piece(s, idx, forAttributes);
    hide Piece, GroupLength, MustEscapeGt;
    var w := o + text;
    assert text[|text| - 1] in text && w[|w| - 1] == text[|text| - 1];
    forall p: nat | CdataEndAt(w, p) ensures p == 0 && "]]>" <= s {
      if p + 3 <= |o| {
        assert CdataEndAt(o, p);
      } else {
        assert w[p + 2] == text[p + 2 - |o|];
        assert '>' in text;
      }
    }
  }

  lemma {:induction false} BracketsToTheEnd(s: string, idx: nat, o: string, forAttributes: bool)
    requires idx <= |s| && BracketsFollow(s, idx, o)
    ensures BracketsFollow(s, |s|, o + Encode(s, idx, forAttributes))
    decreases |s| - idx
  {
    hide Piece, BracketsFollow;
    if idx == |s| {
      assert o + "" == o;
    } else {
      var (text, n) := Piece(s, idx, forAttributes);
      BracketsStep(s, idx, o, forAttributes);
      BracketsToTheEnd(s, idx + n, o + text, forAttributes);
      Associates(o, text, Encode(s, idx + n, forAttributes));
    }
  }

  lemma CdataEndSurvives(s: string, forAttributes: bool)
    requires "]]>" <= s
    ensures CdataEndAt(Encode(s, 0, forAttributes), 0)
  {
    assert s[0] == ']' && s[1] == ']' && s[2] == '>';
    assert Piece(s, 0, forAttributes) == ("]", 1);
    assert Piece(s, 1, forAttributes) == ("]", 1);
    assert Piece(s, 2, forAttributes) == (">", 1);
    hide Piece;
    assert Encode(s, 2, forAttributes) == ">" + Encode(s, 3, forAttributes);
    assert Encode(s, 1, forAttributes) == "]" + Encode(s, 2, forAttributes);
    assert Encode(s, 0, forAttributes) == "]" + Encode(s, 1, forAttributes);
  }

  /** The output contains a CDATA end exactly when the input starts with one, and then at its start:
    the guard looks two bytes back only from the fourth byte on. */
  lemma CdataEndExactly(s: string, forAttributes: bool)
    ensures var o := Encode(s, 0, forAttributes);
      && (forall p: nat :: CdataEndAt(o, p) ==> p == 0)
      && (CdataEndAt(o, 0) <==> "]]>" <= s)
  {
    hide Encode;
    BracketsToTheEnd(s, 0, "", forAttributes);
    assert "" + Encode(s, 0, forAttributes) == Encode(s, 0, forAttributes);
    if "]]>" <= s {
      CdataEndSurvives(s, forAttributes);
    }
  }
}
