/** A listener to the XML that the reporter writes: it puts together again what was reported, from the
  marks a reader sees and nothing else. */
module XmlListeners {
  import opened Common
  import opened XmlEncoding
  import opened XmlWriters
  import opened XmlReporters

  // ----- the listener -----

  /** An element with its attributes as they stand in the document, and the texts in it or in the plain
    elements inside it, each with the name of its element. */
  datatype Element = Element(depth: nat, name: string, attributes: map<string, string>, texts: seq<(string, string)>)

  datatype Hearing = Hearing(open: seq<string>, elements: seq<Element>)

  /** Inside these elements there are plain ones only, which hold nothing but text. */
  predicate HoldsTexts(open: seq<string>) {
    open != [] && open[|open| - 1] in ["Expression", "Message"]
  }

  function WithLast(es: seq<Element>, e: Element): seq<Element>
    requires es != []
  {
    es[..|es| - 1] + [e]
  }

  function MoreText(e: Element, s: string): Element {
    if s == "" then e
    else if e.texts == [] then e.(texts := [(e.name, s)])
    else
      var (name, t) := e.texts[|e.texts| - 1];
      e.(texts := e.texts[..|e.texts| - 1] + [(name, t + s)])
  }

  function Hear1(h: Hearing, m: Mark): Hearing {
    var es := h.elements;
    match m
    case Start(name) =>
      Hearing(h.open + [name],
              if HoldsTexts(h.open) && es != [] then
                var e := es[|es| - 1];
                WithLast(es, e.(texts := e.texts + [(name, "")]))
              else es + [Element(|h.open|, name, map[], [])])
    case Attribute(name, value) =>
      if es == [] then h
      else
        var e := es[|es| - 1];
        h.(elements := WithLast(es, e.(attributes := e.attributes[name := value])))
    case Letter(c) => if es == [] then h else h.(elements := WithLast(es, MoreText(es[|es| - 1], [c])))
    case End(_) => if h.open == [] then h else h.(open := h.open[..|h.open| - 1])
  }

  function Hear(marks: seq<Mark>): Hearing {
    if marks == [] then Hearing([], []) else Hear1(Hear(marks[..|marks| - 1]), marks[|marks| - 1])
  }

  // ----- what the listener understands -----

  /** What was reported; an attribute that is missing was empty. */
  datatype Report =
    | Root(binary: string, version: string)
    | Settings(orderBy: string, randSeed: string, first: string, last: string, abortAfter: string,
               filterLevels: string, caseSensitive: bool, noThrow: bool, noSkip: bool)
    | Suite(name: string)
    | Case(name: string, file: string, line: string, description: string, timeout: string,
           mayFail: bool, shouldFail: bool, skipped: bool)
    | Subcase(name: string, file: string, line: string)
    | Assertion(success: bool, kind: string, file: string, line: string, original: Option<string>,
                exception: Option<string>, exceptionType: Option<string>, exceptionString: Option<string>,
                expanded: Option<string>, infos: seq<string>)
    | Message(severity: string, file: string, line: string, text: Option<string>, infos: seq<string>)
    | Exception(crash: bool, what: string)
    | Asserts(successes: string, failures: string, duration: string, expectedFailures: string)
    | Cases(successes: string, failures: string, skippedCases: string)
    | Unknown

  /** A report, and how many elements are open around it. */
  datatype Placed = Placed(depth: nat, report: Report)

  function Raw(e: Element, name: string): string {
    if name in e.attributes then e.attributes[name] else ""
  }

  function Value(e: Element, name: string): string {
    Decode(Raw(e, name))
  }

  predicate Flag(e: Element, name: string) {
    Value(e, name) == "true"
  }

  function TextsOf(texts: seq<(string, string)>, name: string): seq<string> {
    if texts == [] then []
    else (if texts[0].0 == name then [Decode(texts[0].1)] else []) + TextsOf(texts[1..], name)
  }

  function TextOf(e: Element, name: string): Option<string> {
    var found := TextsOf(e.texts, name);
    if found == [] then None else Some(found[0])
  }

  function AsRoot(e: Element): Report {
    Root(Value(e, "binary"), Value(e, "version"))
  }

  function AsSettings(e: Element): Report {
    Settings(Value(e, "order_by"), Value(e, "rand_seed"), Value(e, "first"), Value(e, "last"), Value(e, "abort_after"),
             Value(e, "subcase_filter_levels"), Flag(e, "case_sensitive"), Flag(e, "no_throw"), Flag(e, "no_skip"))
  }

  function AsCase(e: Element): Report {
    Case(Value(e, "name"), Value(e, "filename"), Value(e, "line"), Value(e, "description"), Value(e, "timeout"),
         Flag(e, "may_fail"), Flag(e, "should_fail"), Flag(e, "skipped"))
  }

  function AsSubcase(e: Element): Report {
    Subcase(Value(e, "name"), Value(e, "filename"), Value(e, "line"))
  }

  function AsAssertion(e: Element): Report {
    Assertion(Flag(e, "success"), Value(e, "type"), Value(e, "filename"), Value(e, "line"), TextOf(e, "Original"),
              TextOf(e, "Exception"), TextOf(e, "ExpectedException"), TextOf(e, "ExpectedExceptionString"),
              TextOf(e, "Expanded"), TextsOf(e.texts, "Info"))
  }

  function AsMessage(e: Element): Report {
    Message(Value(e, "type"), Value(e, "filename"), Value(e, "line"), TextOf(e, "Text"), TextsOf(e.texts, "Info"))
  }

  function AsException(e: Element): Report {
    Exception(Flag(e, "crash"), if e.texts == [] then "" else Decode(e.texts[0].1))
  }

  function AsAsserts(e: Element): Report {
    Asserts(Value(e, "successes"), Value(e, "failures"), Value(e, "duration"), Value(e, "expected_failures"))
  }

  function AsCases(e: Element): Report {
    Cases(Value(e, "successes"), Value(e, "failures"), Value(e, "skipped"))
  }

  function Understood(e: Element): Report {
    if e.name == "doctest" then AsRoot(e)
    else if e.name == "Options" then AsSettings(e)
    else if e.name == "TestSuite" then Suite(Value(e, "name"))
    else if e.name == "TestCase" then AsCase(e)
    else if e.name == "SubCase" then AsSubcase(e)
    else if e.name == "Expression" then AsAssertion(e)
    else if e.name == "Message" then AsMessage(e)
    else if e.name == "Exception" then AsException(e)
    else if e.name == "OverallResultsAsserts" then AsAsserts(e)
    else if e.name == "OverallResultsTestCases" then AsCases(e)
    else Unknown
  }

  function Reports(d: Doc): seq<Placed> {
    AllUnderstood(Hear(d.seen).elements)
  }

  function AllUnderstood(es: seq<Element>): (r: seq<Placed>)
    ensures |r| == |es|
  {
    seq(|es|, i requires 0 <= i < |es| => Placed(es[i].depth, Understood(es[i])))
  }

  // ----- what was to be reported -----

  /** What a reader makes of an attribute: the text itself exactly if that is well-formed (RoundTrip). */
  function AsRead(v: string): string {
    Decode(RawText(v))
  }

  function RawText(v: string): string {
    Encode(v, 0, true)
  }

  function Squeezed(s: string): string {
    if s == "" then "" else (if Space(s[0]) then "" else [s[0]]) + Squeezed(s[1..])
  }

  /** The same for the text in an element, leaving out white space. */
  function AsHeard(t: string): string {
    Squeezed(Decode(Encode(t, 0, false)))
  }

  function MaybeRead(v: Option<string>): string {
    if v.Some? then AsRead(v.value) else ""
  }

  function MaybeHeard(t: Option<string>): Option<string> {
    if t.Some? then Some(AsHeard(t.value)) else None
  }

  function AllHeard(ts: seq<string>): (r: seq<string>)
    ensures |r| == |ts|
  {
    seq(|ts|, i requires 0 <= i < |ts| => AsHeard(ts[i]))
  }

  function SuiteTold(tc: Option<TestCaseData>, data: TestCaseData): seq<Placed> {
    if tc.Some? && tc.value.suite == data.suite then [] else [Placed(1, Suite(AsRead(data.suite)))]
  }

  function CaseTold(tc: Option<TestCaseData>, data: TestCaseData, skipped: bool): seq<Placed> {
    SuiteTold(tc, data)
    + [Placed(2, Case(AsRead(data.name), AsRead(data.file), AsRead(data.line), AsRead(data.description),
                      MaybeRead(data.timeout), data.mayFail, data.shouldFail, skipped))]
  }

  function SettingsTold(opt: Options): Report {
    Settings(AsRead(opt.orderBy), AsRead(opt.randSeed), AsRead(opt.first), AsRead(opt.last), AsRead(opt.abortAfter),
             AsRead(opt.subcaseFilterLevels), opt.caseSensitive, opt.noThrow, opt.noSkip)
  }

  /** What one callback reports, when `depth` elements are open and `tc` is the latest test case. */
  function Told(opt: Options, depth: nat, tc: Option<TestCaseData>, cb: Callback): seq<Placed> {
    match cb
    case TestRunStart =>
      [Placed(0, Root(AsRead(opt.binaryName), MaybeRead(opt.version))),
       Placed(1, SettingsTold(opt))]
    case TestCaseStart(data) => CaseTold(tc, data, false)
    case TestCaseReenter => []
    case TestCaseEnd(stats) =>
      [Placed(depth, Asserts(AsRead(stats.successes), AsRead(stats.failures),
                             if opt.duration then AsRead(stats.seconds) else "",
                             if tc.Some? then MaybeRead(tc.value.expectedFailures) else ""))]
    case TestCaseSkipped(data) => if opt.noSkippedSummary then [] else CaseTold(tc, data, true)
    case TestCaseException(text, crash) => [Placed(depth, Exception(crash, AsHeard(text)))]
    case SubcaseStart(name, file, line) => [Placed(depth, Subcase(AsRead(name), AsRead(file), AsRead(line)))]
    case SubcaseEnd => []
    case LogAssert(a, contexts) =>
      if !a.failed && !opt.success then []
      else
        [Placed(depth, Assertion(!a.failed, AsRead(a.kind), AsRead(a.file), AsRead(a.line), Some(AsHeard(a.expr)),
                                 MaybeHeard(a.exception), MaybeHeard(a.exceptionType), MaybeHeard(a.exceptionString),
                                 if a.isNormal && a.exception.None? then Some(AsHeard(a.decomp)) else None,
                                 AllHeard(contexts)))]
    case LogMessage(m, contexts) =>
      [Placed(depth, Message(AsRead(m.severity), AsRead(m.file), AsRead(m.line), Some(AsHeard(m.text)),
                             AllHeard(contexts)))]
    case TestRunEnd(stats) =>
      [Placed(1, Asserts(AsRead(stats.successes), AsRead(stats.failures), "", "")),
       Placed(1, Cases(AsRead(stats.caseSuccesses), AsRead(stats.caseFailures),
                       if opt.noSkippedSummary then "" else AsRead(stats.skipped)))]
  }

  /** How many elements are open in a phase. */
  function Around(phase: Phase): nat {
    match phase
    case NotStarted => 0
    case BetweenCases(None) => 1
    case BetweenCases(Some(_)) => 2
    case InCase(_, depth) => 3 + depth
    case Finished => 0
  }

  /** The latest test case behind a callback. */
  function LatestCase(opt: Options, tc: Option<TestCaseData>, cb: Callback): Option<TestCaseData> {
    match cb
    case TestCaseStart(data) => Some(data)
    case TestCaseSkipped(data) => if opt.noSkippedSummary then tc else Some(data)
    case _ => tc
  }

  /** What a sequence of callbacks reports. */
  function ToldAll(opt: Options, phase: Phase, tc: Option<TestCaseData>, cbs: seq<Callback>): seq<Placed>
    requires After(opt, phase, cbs).Some?
    decreases |cbs|
  {
    if cbs == [] then []
    else
      Told(opt, Around(phase), tc, cbs[0])
      + ToldAll(opt, XmlReporters.Next(opt, phase, cbs[0]).value, LatestCase(opt, tc, cbs[0]), cbs[1..])
  }

  // ----- what the listener hears of each piece that the reporter writes -----

  /** The listener has followed so far, and heard `e` last. */
  ghost predicate At(d: Doc, before: seq<Element>, e: Element) {
    Hear(d.seen) == Hearing(d.tags, before + [e])
  }

  ghost predicate Followed(d: Doc, es: seq<Element>) {
    Hear(d.seen) == Hearing(d.tags, es)
  }

  lemma HearOne(marks: seq<Mark>, m: Mark)
    ensures Hear(marks + [m]) == Hear1(Hear(marks), m)
  {
    assert (marks + [m])[..|marks|] == marks;
  }

  lemma AtOpened(d: Doc, es: seq<Element>, name: string)
    requires Followed(d, es) && !HoldsTexts(d.tags)
    ensures At(Opened(d, name), es, Element(|d.tags|, name, map[], []))
  {
    HearOne(d.seen, Start(name));
  }

  lemma FollowedClosed(d: Doc, es: seq<Element>)
    requires Followed(d, es) && d.tags != []
    ensures Followed(Closed(d), es)
  {
    HearOne(d.seen, End(d.tags[|d.tags| - 1]));
  }

  function Put(e: Element, name: string, raw: string): Element {
    if raw == "" then e else e.(attributes := e.attributes[name := raw])
  }

  lemma AtNoted(d: Doc, before: seq<Element>, e: Element, name: string, raw: string)
    requires At(d, before, e) && raw != ""
    ensures At(Noted(d, Attribute(name, raw)), before, Put(e, name, raw))
  {
    HearOne(d.seen, Attribute(name, raw));
    assert (before + [e])[..|before|] == before;
  }

  lemma {:induction false} AtWithText(d: Doc, before: seq<Element>, e: Element, s: string)
    requires At(d, before, e)
    ensures At(WithText(d, s), before, MoreText(e, Squeezed(s)))
    decreases |s|
  {
    if s == "" {
      assert d.seen + [] == d.seen;
    } else if Space(s[0]) {
      AtWithText(d, before, e, s[1..]);
      assert [] + Letters(s[1..]) == Letters(s[1..]) && "" + Squeezed(s[1..]) == Squeezed(s[1..]);
    } else {
      var d1 := Noted(d, Letter(s[0]));
      HearOne(d.seen, Letter(s[0]));
      assert (before + [e])[..|before|] == before;
      AtWithText(d1, before, MoreText(e, [s[0]]), s[1..]);
      Associates(d.seen, [Letter(s[0])], Letters(s[1..]));
      MoreAndMore(e, [s[0]], Squeezed(s[1..]));
    }
  }

  lemma MoreAndMore(e: Element, a: string, b: string)
    requires a != ""
    ensures MoreText(MoreText(e, a), b) == MoreText(e, a + b)
  {
    if b == "" {
      assert a + b == a;
    } else if e.texts != [] {
      var (name, t) := e.texts[|e.texts| - 1];
      Associates(t, a, b);
    }
  }

  function HeardText(text: string): string {
    Squeezed(Encode(text, 0, false))
  }

  function AddText(e: Element, name: string, text: string): Element {
    e.(texts := e.texts + [(name, HeardText(text))])
  }

  lemma AtTexted(d: Doc, before: seq<Element>, e: Element, name: Tag, text: string)
    requires At(d, before, e) && HoldsTexts(d.tags)
    ensures At(Texted(d, name, text), before, AddText(e, name, text))
  {
    hide Encode;
    var d1 := Opened(d, name);
    var e1 := e.(texts := e.texts + [(name, "")]);
    HearOne(d.seen, Start(name));
    assert (before + [e])[..|before|] == before;
    assert At(d1, before, e1);
    var raw := Encode(text, 0, false);
    AtWithText(d1, before, e1, raw);
    assert "" + Squeezed(raw) == Squeezed(raw) && e1.texts[..|e.texts|] == e.texts;
    FollowedClosed(WithText(d1, raw), before + [AddText(e, name, text)]);
  }

  /** Some texts in order, where some are left out. */
  type Parts = seq<(string, Option<string>)>

  function Flat(parts: Parts): seq<(string, string)> {
    if parts == [] then []
    else
      var (name, text) := parts[|parts| - 1];
      Flat(parts[..|parts| - 1]) + if text.Some? then [(name, HeardText(text.value))] else []
  }

  function Infos(contexts: seq<string>): seq<(string, string)> {
    if contexts == [] then []
    else Infos(contexts[..|contexts| - 1]) + [("Info", HeardText(contexts[|contexts| - 1]))]
  }

  ghost predicate HasTexts(d: Doc, before: seq<Element>, e: Element, parts: Parts) {
    At(d, before, e.(texts := Flat(parts)))
  }

  lemma HasMaybeTexted(d: Doc, before: seq<Element>, e: Element, parts: Parts, name: Tag, text: Option<string>)
    requires HasTexts(d, before, e, parts) && HoldsTexts(d.tags)
    ensures HasTexts(MaybeTexted(d, name, text), before, e, parts + [(name, text)])
  {
    hide HeardText, Texted, HoldsTexts;
    assert (parts + [(name, text)])[..|parts|] == parts;
    if text.Some? {
      AtTexted(d, before, e.(texts := Flat(parts)), name, text.value);
    } else {
      assert Flat(parts) + [] == Flat(parts);
    }
  }

  lemma {:induction false} AtInformed(d: Doc, before: seq<Element>, e: Element, contexts: seq<string>)
    requires At(d, before, e) && HoldsTexts(d.tags)
    ensures At(Informed(d, contexts), before, e.(texts := e.texts + Infos(contexts)))
    decreases |contexts|
  {
    hide At, Texted, HeardText, HoldsTexts;
    if contexts == [] {
      assert e.texts + [] == e.texts;
    } else {
      var first, last := contexts[..|contexts| - 1], contexts[|contexts| - 1];
      AtInformed(d, before, e, first);
      AtTexted(Informed(d, first), before, e.(texts := e.texts + Infos(first)), INFO, last);
      Associates(e.texts, Infos(first), [("Info", HeardText(last))]);
    }
  }

  // ----- attributes: in order, where those without a value are left out -----

  type Pairs = seq<(string, string)>

  function PutAll(e: Element, pairs: Pairs): Element {
    if pairs == [] then e
    else
      var (name, raw) := pairs[|pairs| - 1];
      Put(PutAll(e, pairs[..|pairs| - 1]), name, raw)
  }

  /** The listener has heard an element with these attributes last. */
  ghost predicate Has(d: Doc, before: seq<Element>, e: Element, pairs: Pairs) {
    At(d, before, PutAll(e, pairs))
  }

  lemma HasIsAt(d: Doc, before: seq<Element>, e: Element, pairs: Pairs)
    ensures Has(d, before, e, pairs) <==> At(d, before, PutAll(e, pairs))
  {
  }

  lemma PutMore(e: Element, pairs: Pairs, name: string, raw: string)
    ensures PutAll(e, pairs + [(name, raw)]) == Put(PutAll(e, pairs), name, raw)
  {
    assert (pairs + [(name, raw)])[..|pairs|] == pairs;
  }

  function MaybeRaw(v: Option<string>): string {
    if v.Some? then RawText(v.value) else ""
  }

  function RawFlag(value: bool): string {
    if value then "true" else "false"
  }

  lemma EmptyOnly(v: string)
    ensures RawText(v) == "" <==> v == ""
  {
    if v != "" {
      OpenEncode(v, 0, true);
      PieceIsOfAKind(v, 0, true);
    }
  }

  lemma HasAttributed(d: Doc, before: seq<Element>, e: Element, pairs: Pairs, name: Tag, v: string)
    requires Has(d, before, e, pairs)
    ensures Has(Attributed(d, name, v), before, e, pairs + [(name, RawText(v))])
  {
    EmptyOnly(v);
    PutMore(e, pairs, name, RawText(v));
    if v != "" {
      AtNoted(d, before, PutAll(e, pairs), name, RawText(v));
    }
  }

  lemma HasMaybeAttributed(d: Doc, before: seq<Element>, e: Element, pairs: Pairs, name: Tag, v: Option<string>)
    requires Has(d, before, e, pairs)
    ensures Has(MaybeAttributed(d, name, v), before, e, pairs + [(name, MaybeRaw(v))])
  {
    if v.Some? {
      HasAttributed(d, before, e, pairs, name, v.value);
    } else {
      HasNothing(d, before, e, pairs, name);
    }
  }

  lemma HasNothing(d: Doc, before: seq<Element>, e: Element, pairs: Pairs, name: string)
    requires Has(d, before, e, pairs)
    ensures Has(d, before, e, pairs + [(name, "")])
  {
    PutMore(e, pairs, name, "");
  }

  lemma HasFlagged(d: Doc, before: seq<Element>, e: Element, pairs: Pairs, name: Tag, value: bool)
    requires Has(d, before, e, pairs)
    ensures Has(Flagged(d, name, value), before, e, pairs + [(name, RawFlag(value))])
  {
    PutMore(e, pairs, name, RawFlag(value));
    AtNoted(d, before, PutAll(e, pairs), name, RawFlag(value));
  }

  lemma HasOpened(d: Doc, es: seq<Element>, name: string, pairs: Pairs)
    requires Followed(d, es) && !HoldsTexts(d.tags)
    ensures Has(Opened(d, name), es, Element(|d.tags|, name, map[], []), pairs[..0])
  {
    AtOpened(d, es, name);
  }

  /** The k-th attribute comes next. */
  lemma NextValue(d: Doc, before: seq<Element>, e: Element, pairs: Pairs, k: nat, name: Tag, v: string)
    requires k < |pairs| && pairs[k] == (name, RawText(v)) && Has(d, before, e, pairs[..k])
    ensures Has(Attributed(d, name, v), before, e, pairs[..k + 1])
  {
    hide Has, Attributed, RawText;
    HasAttributed(d, before, e, pairs[..k], name, v);
    assert pairs[..k] + [pairs[k]] == pairs[..k + 1];
  }

  lemma NextMaybe(d: Doc, before: seq<Element>, e: Element, pairs: Pairs, k: nat, name: Tag, v: Option<string>)
    requires k < |pairs| && pairs[k] == (name, MaybeRaw(v)) && Has(d, before, e, pairs[..k])
    ensures Has(MaybeAttributed(d, name, v), before, e, pairs[..k + 1])
  {
    hide Has, MaybeAttributed, MaybeRaw;
    HasMaybeAttributed(d, before, e, pairs[..k], name, v);
    assert pairs[..k] + [pairs[k]] == pairs[..k + 1];
  }

  lemma NextFlag(d: Doc, before: seq<Element>, e: Element, pairs: Pairs, k: nat, name: Tag, value: bool)
    requires k < |pairs| && pairs[k] == (name, RawFlag(value)) && Has(d, before, e, pairs[..k])
    ensures Has(Flagged(d, name, value), before, e, pairs[..k + 1])
  {
    hide Has, Flagged, RawFlag;
    HasFlagged(d, before, e, pairs[..k], name, value);
    assert pairs[..k] + [pairs[k]] == pairs[..k + 1];
  }

  lemma NextNothing(d: Doc, before: seq<Element>, e: Element, pairs: Pairs, k: nat)
    requires k < |pairs| && pairs[k].1 == "" && Has(d, before, e, pairs[..k])
    ensures Has(d, before, e, pairs[..k + 1])
  {
    hide Has;
    HasNothing(d, before, e, pairs[..k], pairs[k].0);
    assert pairs[..k] + [pairs[k]] == pairs[..k + 1];
  }

  lemma NextLocation(d: Doc, before: seq<Element>, e: Element, pairs: Pairs, k: nat, file: string, line: string)
    requires k + 1 < |pairs| && pairs[k] == ("filename", RawText(file)) && pairs[k + 1] == ("line", RawText(line))
    requires Has(d, before, e, pairs[..k])
    ensures Has(Located(d, file, line), before, e, pairs[..k + 2])
  {
    hide Has, Attributed, RawText;
    NextValue(d, before, e, pairs, k, FILENAME, file);
    NextValue(Attributed(d, FILENAME, file), before, e, pairs, k + 1, LINE, line);
  }

  // ----- reading them back -----

  predicate Differ(pairs: Pairs) {
    forall i, j :: 0 <= i < j < |pairs| ==> pairs[i].0 != pairs[j].0
  }

  /** Attributes of different names are read back one by one. */
  lemma {:induction false} RawPutAll(e: Element, pairs: Pairs)
    requires e.attributes == map[] && Differ(pairs)
    ensures var r := PutAll(e, pairs);
      && r.name == e.name && r.depth == e.depth && r.texts == e.texts
      && (forall i :: 0 <= i < |pairs| ==> Raw(r, pairs[i].0) == pairs[i].1)
      && (forall n :: n in r.attributes ==> exists i :: 0 <= i < |pairs| && pairs[i].0 == n)
    decreases |pairs|
  {
    if pairs != [] {
      RawPutAll(e, pairs[..|pairs| - 1]);
    }
  }

  /** Enough to tell the names apart. */
  function Key(s: string): int {
    if s == "" then 0 else |s| * 1_000 + s[0] as int
  }

  predicate Recalls(r: Element, pairs: Pairs) {
    forall i :: 0 <= i < |pairs| ==> Raw(r, pairs[i].0) == pairs[i].1
  }

  lemma Recalled(e: Element, pairs: Pairs, keys: seq<int>)
    requires e.attributes == map[]
    requires |keys| == |pairs| && forall i :: 0 <= i < |pairs| ==> Key(pairs[i].0) == keys[i]
    requires forall i, j :: 0 <= i < j < |keys| ==> keys[i] != keys[j]
    ensures var r := PutAll(e, pairs);
      Recalls(r, pairs) && r.name == e.name && r.depth == e.depth && r.texts == e.texts
  {
    RawPutAll(e, pairs);
  }

  lemma Says(r: Element, pairs: Pairs, i: nat, name: string)
    requires Recalls(r, pairs) && i < |pairs| && pairs[i].0 == name
    ensures Value(r, name) == Decode(pairs[i].1) && Flag(r, name) == (Decode(pairs[i].1) == "true")
  {
  }

  lemma RawWords()
    ensures Decode("") == "" && Decode("true") == "true" && Decode("false") == "false"
    ensures AsRead("true") == "true" && AsRead("") == ""
  {
    DecodeLiteral("true", "");
    DecodeLiteral("false", "");
    assert "true" + "" == "true" && "false" + "" == "false";
    RoundTrip("true", true);
    PlainLetters("true");
  }

  lemma {:induction false} PlainLetters(s: string)
    requires forall i :: 0 <= i < |s| ==> 'a' <= s[i] <= 'z'
    ensures WellFormedText(s)
  {
    if s != "" {
      PlainLetters(s[1..]);
    }
  }

  lemma NothingRead()
    ensures AsRead("") == "" && MaybeRead(None) == "" && RawText("") == "" && MaybeRaw(None) == ""
  {
    EmptyOnly("");
    RawWords();
  }

  lemma Dispatch(e: Element)
    ensures match e.name
      case "doctest" => Understood(e) == AsRoot(e)
      case "Options" => Understood(e) == AsSettings(e)
      case "TestSuite" => Understood(e) == Suite(Value(e, "name"))
      case "TestCase" => Understood(e) == AsCase(e)
      case "SubCase" => Understood(e) == AsSubcase(e)
      case "Expression" => Understood(e) == AsAssertion(e)
      case "Message" => Understood(e) == AsMessage(e)
      case "Exception" => Understood(e) == AsException(e)
      case "OverallResultsAsserts" => Understood(e) == AsAsserts(e)
      case "OverallResultsTestCases" => Understood(e) == AsCases(e)
      case _ => true
  {
    hide AsRoot, AsSettings, AsCase, AsSubcase, AsAssertion, AsMessage, AsException, AsAsserts, AsCases, Value;
  }

  // ----- all that was reported so far -----

  /** The listener has followed so far, and understood all that was told. */
  ghost predicate Reported(d: Doc, told: seq<Placed>) {
    Hear(d.seen).open == d.tags && Reports(d) == told
  }

  lemma ReportedFollows(d: Doc, told: seq<Placed>) returns (es: seq<Element>)
    requires Reported(d, told)
    ensures Followed(d, es) && AllUnderstood(es) == told
  {
    es := Hear(d.seen).elements;
  }

  lemma FollowedReports(d: Doc, es: seq<Element>)
    requires Followed(d, es)
    ensures Reported(d, AllUnderstood(es))
  {
  }

  /** An element that is complete. */
  lemma OneMore(d: Doc, es: seq<Element>, told: seq<Placed>, e: Element, pairs: Pairs)
    requires Has(d, es, e, pairs[..|pairs|]) && AllUnderstood(es) == told
    ensures Followed(d, es + [PutAll(e, pairs)])
    ensures AllUnderstood(es + [PutAll(e, pairs)]) ==
      told + [Placed(PutAll(e, pairs).depth, Understood(PutAll(e, pairs)))]
    ensures Reported(d, told + [Placed(PutAll(e, pairs).depth, Understood(PutAll(e, pairs)))])
  {
    hide PutAll, Understood;
    assert pairs[..|pairs|] == pairs;
    UnderstoodMore(es, PutAll(e, pairs));
    FollowedReports(d, es + [PutAll(e, pairs)]);
  }

  lemma UnderstoodMore(es: seq<Element>, e: Element)
    ensures AllUnderstood(es + [e]) == AllUnderstood(es) + [Placed(e.depth, Understood(e))]
  {
  }

  lemma ReportedClosed(d: Doc, told: seq<Placed>)
    requires Reported(d, told) && d.tags != []
    ensures Reported(Closed(d), told)
  {
    var es := ReportedFollows(d, told);
    FollowedClosed(d, es);
    FollowedReports(Closed(d), es);
  }

  lemma OnlyTwo(tags: seq<string>)
    requires tags == [] || tags[|tags| - 1] in ["doctest", "TestSuite", "TestCase", "SubCase"]
    ensures !HoldsTexts(tags)
  {
  }

  // ----- texts -----

  lemma {:induction false} SqueezedAppend(a: string, b: string)
    ensures Squeezed(a + b) == Squeezed(a) + Squeezed(b)
  {
    if a == "" {
      assert a + b == b;
    } else {
      SqueezedAppend(a[1..], b);
      assert (a + b)[1..] == a[1..] + b && (a + b)[0] == a[0];
      Associates(if Space(a[0]) then "" else [a[0]], Squeezed(a[1..]), Squeezed(b));
    }
  }

  lemma {:induction false} SqueezedHolds(s: string)
    ensures forall c :: c in Squeezed(s) ==> c in s
    ensures (forall c :: c in s ==> !Space(c)) ==> Squeezed(s) == s
  {
    if s != "" {
      SqueezedHolds(s[1..]);
      assert s == [s[0]] + s[1..];
    }
  }

  /** No white space stands in the middle of an entity, so it can be left out before or after decoding. */
  lemma {:induction false} DecodeSqueezed(s: string, idx: nat, forAttributes: bool)
    requires idx <= |s|
    ensures Decode(Squeezed(Encode(s, idx, forAttributes))) == Squeezed(Decode(Encode(s, idx, forAttributes)))
    decreases |s| - idx
  {
    hide Piece, PieceKind, Decode, Encode, Squeezed, Escaped, HexEscape, GroupLength;
    if idx < |s| {
      OpenEncode(s, idx, forAttributes);
      var (text, n) := Piece(s, idx, forAttributes);
      var rest := Encode(s, idx + n, forAttributes);
      DecodeSqueezed(s, idx + n, forAttributes);
      SqueezedAppend(text, rest);
      PieceSqueezed(s, idx, forAttributes, Squeezed(rest));
      PieceDecoded(s, idx, forAttributes, rest);
      SqueezedAppend(Decode(text), Decode(rest));
    } else {
      NothingEncoded(s, forAttributes);
    }
  }

  lemma NothingEncoded(s: string, forAttributes: bool)
    ensures Encode(s, |s|, forAttributes) == "" && Decode("") == "" && Squeezed("") == ""
  {
  }

  lemma PieceDecoded(s: string, idx: nat, forAttributes: bool, rest: string)
    requires idx < |s|
    ensures var text := Piece(s, idx, forAttributes).0;
      Decode(text + rest) == Decode(text) + Decode(rest)
  {
    hide Piece, Escaped, HexEscape, Decode;
    DecodePiece(s, idx, forAttributes, rest);
    DecodePiece(s, idx, forAttributes, "");
    NothingEncoded(s, forAttributes);
    var (text, n) := Piece(s, idx, forAttributes);
    assert text + "" == text;
    assert Decode(text) + "" == Decode(text);
    var decoded := if Escaped(s, idx) then HexEscape(Byte(s, idx)) else s[idx..idx + n];
    assert decoded + "" == decoded;
  }

  lemma PieceSqueezed(s: string, idx: nat, forAttributes: bool, rest: string)
    requires idx < |s|
    ensures var text := Piece(s, idx, forAttributes).0;
      Decode(Squeezed(text) + rest) == Squeezed(Decode(text)) + Decode(rest)
  {
    PieceIsOfAKind(s, idx, forAttributes);
    hide Piece, Escaped, Decode, Squeezed;
    var (text, n) := Piece(s, idx, forAttributes);
    assert text + "" == text;
    if text in ENTITIES {
      EntitySqueezed(text);
      DecodeEntity(text, rest);
      DecodeEntity(text, "");
    } else {
      NoAmpersand(text, Byte(s, idx));
      SqueezedHolds(text);
      DecodeLiteral(text, "");
      DecodeLiteral(Squeezed(text), rest);
    }
    NothingEncoded(s, forAttributes);
    assert Decode(text) + "" == Decode(text);
    assert Squeezed(text) + "" == Squeezed(text);
  }

  lemma EntitySqueezed(e: string)
    requires e in ENTITIES
    ensures Squeezed(e) == e && Squeezed(Meaning(e)) == Meaning(e)
  {
    hide Squeezed;
    SqueezedHolds(e);
    SqueezedHolds(Meaning(e));
    EntityIsSolid(e);
  }

  lemma EntityIsSolid(e: string)
    requires e in ENTITIES
    ensures forall i :: 0 <= i < |e| ==> !Space(e[i])
    ensures |Meaning(e)| == 1 && !Space(Meaning(e)[0])
  {
  }

  lemma HeardIs(text: string)
    ensures Decode(HeardText(text)) == AsHeard(text)
  {
    DecodeSqueezed(text, 0, false);
  }

  lemma {:induction false} TextsAppend(a: seq<(string, string)>, b: seq<(string, string)>, name: string)
    ensures TextsOf(a + b, name) == TextsOf(a, name) + TextsOf(b, name)
  {
    if a == [] {
      assert a + b == b;
    } else {
      TextsAppend(a[1..], b, name);
      assert (a + b)[1..] == a[1..] + b;
      Associates(if a[0].0 == name then [Decode(a[0].1)] else [], TextsOf(a[1..], name), TextsOf(b, name));
    }
  }

  lemma OneText(name: string, text: string, n: string)
    ensures TextsOf([(name, HeardText(text))], n) == if n == name then [AsHeard(text)] else []
  {
    HeardIs(text);
    assert [(name, HeardText(text))][1..] == [];
  }

  predicate PartsDiffer(parts: Parts) {
    forall i, j :: 0 <= i < j < |parts| ==> parts[i].0 != parts[j].0
  }

  function One(text: Option<string>): seq<string> {
    if text.Some? then [AsHeard(text.value)] else []
  }

  lemma FlatStep(parts: Parts, n: string)
    requires parts != []
    ensures var (name, text) := parts[|parts| - 1];
      TextsOf(Flat(parts), n) == TextsOf(Flat(parts[..|parts| - 1]), n) + if n == name then One(text) else []
  {
    hide AsHeard, HeardText;
    var (name, text) := parts[|parts| - 1];
    var last := if text.Some? then [(name, HeardText(text.value))] else [];
    TextsAppend(Flat(parts[..|parts| - 1]), last, n);
    if text.Some? {
      OneText(name, text.value, n);
    }
  }

  lemma {:induction false} FlatSilent(parts: Parts, n: string)
    requires forall i :: 0 <= i < |parts| ==> parts[i].0 != n
    ensures TextsOf(Flat(parts), n) == []
    decreases |parts|
  {
    if parts != [] {
      FlatSilent(parts[..|parts| - 1], n);
      FlatStep(parts, n);
    }
  }

  lemma {:induction false} FlatRecalled(parts: Parts, i: nat)
    requires PartsDiffer(parts) && i < |parts|
    ensures TextsOf(Flat(parts), parts[i].0) == One(parts[i].1)
    decreases |parts|
  {
    hide TextsOf, Flat, One;
    var first := parts[..|parts| - 1];
    FlatStep(parts, parts[i].0);
    if i < |first| {
      FlatRecalled(first, i);
      assert first[i] == parts[i];
    } else {
      FlatSilent(first, parts[i].0);
      assert [] + One(parts[i].1) == One(parts[i].1);
    }
  }

  lemma {:induction false} InfosRecalled(contexts: seq<string>, name: string)
    ensures TextsOf(Infos(contexts), name) == if name == "Info" then AllHeard(contexts) else []
    decreases |contexts|
  {
    hide AsHeard, HeardText;
    if contexts != [] {
      var first, last := contexts[..|contexts| - 1], contexts[|contexts| - 1];
      InfosRecalled(first, name);
      TextsAppend(Infos(first), [("Info", HeardText(last))], name);
      OneText("Info", last, name);
      assert AllHeard(contexts) == AllHeard(first) + [AsHeard(last)];
    }
  }

  // ----- an element with its texts -----

  lemma NextText(d: Doc, before: seq<Element>, e: Element, parts: Parts, k: nat, name: Tag, text: Option<string>)
    requires k < |parts| && parts[k] == (name, text) && HasTexts(d, before, e, parts[..k]) && HoldsTexts(d.tags)
    ensures HasTexts(MaybeTexted(d, name, text), before, e, parts[..k + 1])
  {
    hide HasTexts, MaybeTexted, HoldsTexts;
    HasMaybeTexted(d, before, e, parts[..k], name, text);
    assert parts[..k] + [parts[k]] == parts[..k + 1];
  }

  lemma FirstText(d: Doc, before: seq<Element>, e: Element, parts: Parts)
    requires At(d, before, e) && e.texts == []
    ensures HasTexts(d, before, e, parts[..0])
  {
    assert e.(texts := []) == e;
  }

  function Filled(e: Element, parts: Parts, contexts: seq<string>): Element {
    e.(texts := Flat(parts) + Infos(contexts))
  }

  /** All texts are there, and the element is closed. */
  lemma LastTexts(d: Doc, before: seq<Element>, told: seq<Placed>, e: Element, parts: Parts, contexts: seq<string>)
    requires HasTexts(d, before, e, parts[..|parts|]) && HoldsTexts(d.tags) && AllUnderstood(before) == told
    ensures var r := Filled(e, parts, contexts);
      Reported(Closed(Informed(d, contexts)), told + [Placed(r.depth, Understood(r))])
  {
    hide Understood, Flat, Infos;
    assert parts[..|parts|] == parts;
    var r := Filled(e, parts, contexts);
    AtInformed(d, before, e.(texts := Flat(parts)), contexts);
    UnderstoodMore(before, r);
    FollowedClosed(Informed(d, contexts), before + [r]);
    FollowedReports(Closed(Informed(d, contexts)), before + [r]);
  }

  /** What the texts and attributes of a filled element say. */
  lemma FilledSays(e: Element, parts: Parts, contexts: seq<string>)
    requires PartsDiffer(parts) && forall i :: 0 <= i < |parts| ==> parts[i].0 != "Info"
    ensures var r := Filled(e, parts, contexts);
      && r.name == e.name && r.depth == e.depth
      && (forall n :: Raw(r, n) == Raw(e, n))
      && TextsOf(r.texts, "Info") == AllHeard(contexts)
      && (forall i :: 0 <= i < |parts| ==> TextOf(r, parts[i].0) == MaybeHeard(parts[i].1))
  {
    hide Flat, Infos, TextsOf, AsHeard;
    var r := Filled(e, parts, contexts);
    TextsAppend(Flat(parts), Infos(contexts), "Info");
    FlatSilent(parts, "Info");
    InfosRecalled(contexts, "Info");
    assert [] + AllHeard(contexts) == AllHeard(contexts);
    forall i | 0 <= i < |parts| ensures TextOf(r, parts[i].0) == MaybeHeard(parts[i].1) {
      TextsAppend(Flat(parts), Infos(contexts), parts[i].0);
      FlatRecalled(parts, i);
      InfosRecalled(contexts, parts[i].0);
      assert One(parts[i].1) + [] == One(parts[i].1);
    }
  }

  lemma PartsDifferByKey(parts: Parts, keys: seq<int>)
    requires |keys| == |parts| && forall i :: 0 <= i < |parts| ==> Key(parts[i].0) == keys[i]
    requires forall i, j :: 0 <= i < j < |keys| ==> keys[i] != keys[j]
    requires forall i :: 0 <= i < |keys| ==> keys[i] != Key("Info")
    ensures PartsDiffer(parts) && forall i :: 0 <= i < |parts| ==> parts[i].0 != "Info"
  {
  }

  lemma SameRaws(e: Element, r: Element, pairs: Pairs)
    requires Recalls(e, pairs) && forall n :: Raw(r, n) == Raw(e, n)
    ensures Recalls(r, pairs)
  {
  }

  lemma SameAttributes(e: Element, r: Element, pairs: Pairs)
    requires Recalls(e, pairs) && r.attributes == e.attributes
    ensures Recalls(r, pairs)
  {
  }

  lemma TextIsHeard(text: string)
    ensures HeardText(text) == Squeezed(Encode(text, 0, false))
  {
  }

  lemma ClosedElement(d: Doc, es: seq<Element>, told: seq<Placed>, e: Element)
    requires At(d, es, e) && AllUnderstood(es) == told && d.tags != []
    ensures Reported(Closed(d), told + [Placed(e.depth, Understood(e))])
  {
    hide Understood;
    UnderstoodMore(es, e);
    FollowedClosed(d, es + [e]);
    FollowedReports(Closed(d), es + [e]);
  }
}
