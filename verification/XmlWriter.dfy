/** doctest's XML writer, and an independent reader of the characters it writes. */
module XmlWriters {
  import opened XmlEncoding

  // ----- a reader -----

  /** What a reader notices, in order: tags, attributes with their raw values, and the text inside
    elements character by character, leaving out white space. */
  datatype Mark = Start(name: string) | Attribute(name: string, value: string) | Letter(c: char) | End(name: string)

  /** A document read so far: the open elements, and all marks. */
  datatype Doc = Doc(tags: seq<string>, seen: seq<Mark>)

  function Opened(d: Doc, name: string): Doc {
    Doc(d.tags + [name], d.seen + [Start(name)])
  }

  function Closed(d: Doc): Doc
    requires d.tags != []
  {
    Doc(d.tags[..|d.tags| - 1], d.seen + [End(d.tags[|d.tags| - 1])])
  }

  function Noted(d: Doc, m: Mark): Doc {
    Doc(d.tags, d.seen + [m])
  }

  function Letters(s: string): seq<Mark> {
    if s == "" then [] else (if Space(s[0]) then [] else [Letter(s[0])]) + Letters(s[1..])
  }

  function WithText(d: Doc, s: string): Doc {
    Doc(d.tags, d.seen + Letters(s))
  }

  /** Where a reader stands after some characters, with the document so far. */
  datatype Reading =
    | Content(d: Doc)
    | Less(d: Doc)
    | Instruction(d: Doc)
    | InstructionEnd(d: Doc)
    | StartName(d: Doc, name: string)
    | AttributeName(d: Doc, name: string)
    | Equals(d: Doc, name: string)
    | Quoted(d: Doc, name: string, value: string)
    | InTag(d: Doc)
    | Slash(d: Doc)
    | EndName(d: Doc, name: string)
    | Malformed

  predicate NameChar(c: char) {
    'a' <= c <= 'z' || 'A' <= c <= 'Z' || c == '_'
  }

  predicate Space(c: char) {
    c == ' ' || c == '\n'
  }

  /** Elements must nest, attributes be quoted, and only white space stand outside all elements. */
  function Read1(r: Reading, c: char): Reading {
    match r
    case Content(d) =>
      if c == '<' then Less(d)
      else if Space(c) then r
      else if d.tags == [] then Malformed
      else Content(Noted(d, Letter(c)))
    case Less(d) =>
      if c == '/' then EndName(d, "")
      else if c == '?' then Instruction(d)
      else if NameChar(c) then StartName(d, [c])
      else Malformed
    case Instruction(d) => if c == '?' then InstructionEnd(d) else r
    case InstructionEnd(d) => if c == '>' then Content(d) else Malformed
    case StartName(d, name) =>
      if NameChar(c) then StartName(d, name + [c]) else InTagOn(Opened(d, name), c)
    case InTag(d) => InTagOn(d, c)
    case AttributeName(d, name) =>
      if NameChar(c) then AttributeName(d, name + [c])
      else if c == '=' && name != "" then Equals(d, name)
      else Malformed
    case Equals(d, name) => if c == '"' then Quoted(d, name, "") else Malformed
    case Quoted(d, name, value) =>
      if c == '"' then InTag(Noted(d, Attribute(name, value)))
      else if c == '<' then Malformed
      else Quoted(d, name, value + [c])
    case Slash(d) => if c == '>' && d.tags != [] then Content(Closed(d)) else Malformed
    case EndName(d, name) =>
      if NameChar(c) then EndName(d, name + [c])
      else if c == '>' && d.tags != [] && d.tags[|d.tags| - 1] == name then Content(Closed(d))
      else Malformed
    case Malformed => Malformed
  }

  function InTagOn(d: Doc, c: char): Reading {
    if c == ' ' then AttributeName(d, "")
    else if c == '>' then Content(d)
    else if c == '/' then Slash(d)
    else Malformed
  }

  function Read(r: Reading, s: string): Reading
    decreases |s|
  {
    if s == "" then r else Read(Read1(r, s[0]), s[1..])
  }

  lemma {:induction false} ReadAppend(r: Reading, a: string, b: string)
    ensures Read(r, a + b) == Read(Read(r, a), b)
    decreases |a|
  {
    if a == "" {
      assert a + b == b;
    } else {
      ReadAppend(Read1(r, a[0]), a[1..], b);
      assert (a + b)[1..] == a[1..] + b;
    }
  }

  predicate Name(s: string) {
    s != "" && forall i :: 0 <= i < |s| ==> NameChar(s[i])
  }

  /** The name of an element or attribute. */
  type Tag = s: string | Name(s) witness "a"

  lemma {:induction false} ReadStartName(d: Doc, name: string, s: string)
    requires forall i :: 0 <= i < |s| ==> NameChar(s[i])
    ensures Read(StartName(d, name), s) == StartName(d, name + s)
    ensures Read(AttributeName(d, name), s) == AttributeName(d, name + s)
    ensures Read(EndName(d, name), s) == EndName(d, name + s)
    decreases |s|
  {
    if s == "" {
      assert name + s == name;
    } else {
      ReadStartName(d, name + [s[0]], s[1..]);
      assert name + [s[0]] + s[1..] == name + s;
    }
  }

  lemma {:induction false} ReadSpaces(d: Doc, s: string)
    requires forall i :: 0 <= i < |s| ==> Space(s[i])
    ensures Read(Content(d), s) == Content(d)
    decreases |s|
  {
    if s != "" {
      ReadSpaces(d, s[1..]);
    }
  }

  lemma {:induction false} ReadText(d: Doc, s: string)
    requires d.tags != [] && '<' !in s
    ensures Read(Content(d), s) == Content(WithText(d, s))
    decreases |s|
  {
    hide WithText;
    TextStep(d, s);
    if s != "" {
      ReadText(if Space(s[0]) then d else Noted(d, Letter(s[0])), s[1..]);
    }
  }

  lemma TextStep(d: Doc, s: string)
    ensures s == "" ==> WithText(d, s) == d
    ensures s != "" ==> WithText(d, s) == WithText(if Space(s[0]) then d else Noted(d, Letter(s[0])), s[1..])
  {
    if s == "" {
      assert d.seen + [] == d.seen;
    } else {
      var mine := if Space(s[0]) then [] else [Letter(s[0])];
      assert d.seen + (mine + Letters(s[1..])) == (d.seen + mine) + Letters(s[1..]);
      assert d.seen + [] == d.seen;
    }
  }

  lemma {:induction false} ReadQuoted(d: Doc, name: string, value: string, s: string)
    requires '<' !in s && '"' !in s
    ensures Read(Quoted(d, name, value), s) == Quoted(d, name, value + s)
    decreases |s|
  {
    if s == "" {
      assert value + s == value;
    } else {
      ReadQuoted(d, name, value + [s[0]], s[1..]);
      assert value + [s[0]] + s[1..] == value + s;
    }
  }

  /** `<` and a name. */
  lemma ReadStart(d: Doc, name: string)
    requires Name(name)
    ensures Read(Content(d), "<" + name) == StartName(d, name)
  {
    var s := "<" + name;
    assert s[1..] == name;
    assert Read(Content(d), s) == Read(Less(d), name);
    ReadStartName(d, [name[0]], name[1..]);
    assert [name[0]] + name[1..] == name;
  }

  /** `</`, the name of the innermost element, and `>`. */
  lemma ReadEnd(d: Doc)
    requires d.tags != [] && Name(d.tags[|d.tags| - 1])
    ensures Read(Content(d), "</" + d.tags[|d.tags| - 1] + ">") == Content(Closed(d))
  {
    var name := d.tags[|d.tags| - 1];
    ReadAppend(Content(d), "</" + name, ">");
    ReadAppend(Content(d), "</", name);
    assert Read(Content(d), "</") == EndName(d, "") by {
      assert "</"[1..] == "/" && "/"[1..] == "";
    }
    ReadStartName(d, "", name);
    assert "" + name == name;
    assert ">"[1..] == "";
  }

  /** The reader stands inside a start tag. */
  predicate AtOpenTag(r: Reading) {
    r.InTag? || r.StartName?
  }

  /** The document read, an element counting as open as soon as its name is there. */
  function Settled(r: Reading): Doc
    requires r.Content? || AtOpenTag(r)
  {
    if r.StartName? then Opened(r.d, r.name) else r.d
  }

  /** A blank, a name, `="`, an encoded value and `"`. */
  lemma ReadAttribute(r: Reading, name: string, value: string)
    requires AtOpenTag(r) && Name(name) && '<' !in value && '"' !in value
    ensures Read(r, " " + name + "=\"" + value + "\"") == InTag(Noted(Settled(r), Attribute(name, value)))
  {
    var d := Settled(r);
    ReadAppend(r, " " + name + "=\"" + value, "\"");
    ReadAppend(r, " " + name + "=\"", value);
    ReadAppend(r, " " + name, "=\"");
    ReadAppend(r, " ", name);
    assert Read(r, " ") == AttributeName(d, "") by { assert " "[1..] == ""; }
    ReadStartName(d, "", name);
    assert "" + name == name;
    assert Read(AttributeName(d, name), "=\"") == Quoted(d, name, "") by {
      assert "=\""[1..] == "\"" && "\""[1..] == "";
    }
    ReadQuoted(d, name, "", value);
    assert "" + value == value;
    assert "\""[1..] == "";
  }

  /** Closing an open start tag with `>` and a line end, or with `/>`. */
  lemma ReadTagEnd(r: Reading)
    requires AtOpenTag(r) && Settled(r).tags != []
    ensures Read(r, ">\n") == Content(Settled(r))
    ensures Read(r, "/>\n") == Content(Closed(Settled(r)))
  {
    assert ">\n"[1..] == "\n" && "\n"[1..] == "" && "/>\n"[1..] == ">\n";
  }

  lemma EncodedIsSafe(s: string, forAttributes: bool)
    ensures '<' !in Encode(s, 0, forAttributes)
    ensures forAttributes ==> '"' !in Encode(s, 0, forAttributes)
  {
    OutputIsHarmless(s, 0, forAttributes);
    var o := Encode(s, 0, forAttributes);
    forall i | 0 <= i < |o| ensures o[i] != '<' && (forAttributes ==> o[i] != '"') {
      assert Harmless(o, i, forAttributes);
    }
  }

  // ----- the writer -----

  const INSTRUCTION := "xml version=\"1.0\" encoding=\"UTF-8\""
  const DECLARATION := "<?" + INSTRUCTION + "?>\n"

  class XmlWriter {
    /** All characters written so far. */
    var os: string
    var mTagIsOpen: bool
    var mNeedsNewline: bool
    var mTags: seq<string>
    var mIndent: string

    ghost function Reading(): Reading
      reads this
    {
      Read(Content(Doc([], [])), os)
    }

    /** Reading back what was written is possible, and leads to the writer's own tag stack. */
    ghost predicate Valid()
      reads this
    {
      && (if mTagIsOpen then AtOpenTag(Reading()) && mTags != [] && !mNeedsNewline else Reading().Content?)
      && Settled(Reading()).tags == mTags
      && (forall i :: 0 <= i < |mTags| ==> Name(mTags[i]))
      && |mIndent| == 2 * |mTags|
      && (forall i :: 0 <= i < |mIndent| ==> mIndent[i] == ' ')
    }

    /** The document that a reader of the characters written so far has seen. */
    ghost function Document(): Doc
      requires Valid()
      reads this
    {
      Settled(Reading())
    }

    constructor ()
      ensures Valid() && mTags == [] && os == DECLARATION && !mTagIsOpen && !mNeedsNewline
      ensures Document() == Doc([], [])
    {
      os, mTagIsOpen, mNeedsNewline, mTags, mIndent := "", false, false, [], "";
      new;
      hide Read;
      WriteDeclaration();
    }

    /** Everything goes to the stream through here. */
    method Put(text: string)
      modifies this`os
      ensures os == old(os) + text && Reading() == Read(old(Reading()), text)
    {
      ReadAppend(Content(Doc([], [])), os, text);
      os := os + text;
    }

    method WriteDeclaration()
      requires os == ""
      modifies this`os
      ensures os == DECLARATION && Reading() == Content(Doc([], []))
    {
      hide Read;
      ReadNothing(Content(Doc([], [])));
      ReadDeclaration(INSTRUCTION);
      Put(DECLARATION);
    }

    method EnsureTagClosed()
      requires Valid()
      modifies this`os, this`mTagIsOpen
      ensures Valid() && !mTagIsOpen && Document() == old(Document())
      ensures os == old(os) + if old(mTagIsOpen) then ">\n" else ""
    {
      hide Read;
      if mTagIsOpen {
        ReadTagEnd(Reading());
        Put(">\n");
        mTagIsOpen := false;
      }
    }

    method NewlineIfNecessary()
      requires Valid()
      modifies this`os, this`mNeedsNewline
      ensures Valid() && !mNeedsNewline && Document() == old(Document())
      ensures os == old(os) + if old(mNeedsNewline) then "\n" else ""
    {
      hide Read;
      if mNeedsNewline {
        ReadSpaces(Reading().d, "\n");
        Put("\n");
        mNeedsNewline := false;
      }
    }

    method StartElement(name: string)
      requires Valid() && Name(name)
      modifies this
      ensures Valid() && mTagIsOpen && mTags == old(mTags) + [name]
      ensures Document() == Opened(old(Document()), name)
      ensures os == old(os) + (if old(mTagIsOpen) then ">\n" else "") + (if old(mNeedsNewline) then "\n" else "")
        + old(mIndent) + "<" + name
    {
      hide Read;
      EnsureTagClosed();
      NewlineIfNecessary();
      ReadSpaces(Reading().d, mIndent);
      Put(mIndent);
      ReadStart(Reading().d, name);
      Put("<" + name);
      mTags := mTags + [name];
      mIndent := mIndent + "  ";
      mTagIsOpen := true;
      assert old(os) + (if old(mTagIsOpen) then ">\n" else "") + (if old(mNeedsNewline) then "\n" else "")
        + old(mIndent) + ("<" + name) == os;
    }

    method EndElement()
      requires Valid() && mTags != []
      modifies this
      ensures Valid() && !mTagIsOpen && !mNeedsNewline && mTags == old(mTags)[..|old(mTags)| - 1]
      ensures Document() == Closed(old(Document()))
      ensures os == old(os) + (if old(mNeedsNewline) then "\n" else "") +
        if old(mTagIsOpen) then "/>\n" else mIndent + "</" + old(mTags)[|old(mTags)| - 1] + ">\n"
    {
      hide Read;
      NewlineIfNecessary();
      mIndent := mIndent[..|mIndent| - 2];
      if mTagIsOpen {
        ReadTagEnd(Reading());
        Put("/>\n");
        mTagIsOpen := false;
      } else {
        ghost var d := Reading().d;
        ReadSpaces(d, mIndent);
        Put(mIndent);
        ReadEnd(d);
        Put("</" + mTags[|mTags| - 1] + ">");
        ReadSpaces(Closed(d), "\n");
        Put("\n");
        assert mIndent + ("</" + mTags[|mTags| - 1] + ">") + "\n" == mIndent + "</" + mTags[|mTags| - 1] + ">\n";
      }
      mTags := mTags[..|mTags| - 1];
    }

    /** The destructor: whatever is still open is closed, innermost first. */
    method CloseAll()
      requires Valid()
      modifies this
      ensures Valid() && mTags == [] && (old(mTags) != [] ==> Reading().Content?)
      ensures Document().tags == []
    {
      while mTags != []
        invariant Valid() && (mTags != old(mTags) ==> !mTagIsOpen)
        decreases |mTags|
      {
        EndElement();
      }
    }

    method WriteAttribute(name: string, attribute: string)
      requires Valid() && mTagIsOpen && Name(name)
      modifies this`os
      ensures Valid()
      ensures Document() == if attribute == "" then old(Document())
        else Noted(old(Document()), Attribute(name, Encode(attribute, 0, true)))
      ensures os == old(os) + if attribute == "" then "" else " " + name + "=\"" + Encode(attribute, 0, true) + "\""
    {
      hide Read, Encode;
      if name != "" && attribute != "" {
        var encoded := EncodeTo(attribute, true);
        EncodedIsSafe(attribute, true);
        ReadAttribute(Reading(), name, encoded);
        Put(" " + name + "=\"" + encoded + "\"");
      }
    }

    method WriteFlag(name: string, attribute: bool)
      requires Valid() && mTagIsOpen && Name(name)
      modifies this`os
      ensures Valid()
      ensures Document() == Noted(old(Document()), Attribute(name, if attribute then "true" else "false"))
      ensures os == old(os) + " " + name + "=\"" + (if attribute then "true" else "false") + "\""
    {
      hide Read;
      var value := if attribute then "true" else "false";
      ReadAttribute(Reading(), name, value);
      Put(" " + name + "=\"" + value + "\"");
      assert old(os) + (" " + name + "=\"" + value + "\"") == old(os) + " " + name + "=\"" + value + "\"";
    }

    /** Text may only stand inside an element. */
    method WriteText(text: string, indent: bool)
      requires Valid() && mTags != []
      modifies this`os, this`mTagIsOpen, this`mNeedsNewline
      ensures Valid() && Document() == WithText(old(Document()), Encode(text, 0, false))
      ensures text == "" ==> os == old(os)
      ensures text != "" ==>
        && !mTagIsOpen && mNeedsNewline
        && os == old(os) + (if old(mTagIsOpen) then ">\n" + (if indent then mIndent else "") else "")
                 + Encode(text, 0, false)
    {
      hide Read, Encode;
      if text != "" {
        var tagWasOpen := mTagIsOpen;
        EnsureTagClosed();
        ghost var d := Reading().d;
        if tagWasOpen && indent {
          ReadSpaces(d, mIndent);
          Put(mIndent);
        }
        var encoded := EncodeTo(text, false);
        EncodedIsSafe(text, false);
        ReadText(d, encoded);
        Put(encoded);
        mNeedsNewline := true;
      } else {
        NoText(Document());
      }
    }
  }

  lemma NoText(d: Doc)
    ensures WithText(d, Encode("", 0, false)) == d
  {
    assert d.seen + [] == d.seen;
  }

  lemma ReadNothing(r: Reading)
    ensures Read(r, "") == r
  {
  }

  lemma ReadDeclaration(instruction: string)
    requires '?' !in instruction
    ensures Read(Content(Doc([], [])), "<?" + instruction + "?>\n") == Content(Doc([], []))
  {
    var d := Doc([], []);
    ReadAppend(Content(d), "<?" + instruction, "?>\n");
    ReadAppend(Content(d), "<?", instruction);
    assert "<?"[1..] == "?" && "?"[1..] == "";
    ReadInstruction(d, instruction);
    assert "?>\n"[1..] == ">\n" && ">\n"[1..] == "\n" && "\n"[1..] == "";
  }

  lemma {:induction false} ReadInstruction(d: Doc, s: string)
    requires '?' !in s
    ensures Read(Instruction(d), s) == Instruction(d)
    decreases |s|
  {
    if s != "" {
      ReadInstruction(d, s[1..]);
    }
  }
}
