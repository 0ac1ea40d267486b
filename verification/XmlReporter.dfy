/** doctest's XML reporter: the callbacks of a test run, which of them may follow which, and what
  the tag stack is between two of them. */
module XmlReporters {
  import opened Common
  import opened XmlEncoding
  import opened XmlWriters

  /** Numbers are given as the text the stream prints for them. */
  datatype TestCaseData = TestCaseData(
    name: string, suite: string, file: string, line: string, description: string,
    timeout: Option<string>, mayFail: bool, shouldFail: bool, expectedFailures: Option<string>)

  datatype Options = Options(
    binaryName: string, version: Option<string>, orderBy: string, randSeed: string, first: string, last: string,
    abortAfter: string, subcaseFilterLevels: string, caseSensitive: bool, noThrow: bool, noSkip: bool,
    noSkippedSummary: bool, success: bool, duration: bool)

  datatype Stats = Stats(
    successes: string, failures: string, caseSuccesses: string, caseFailures: string, skipped: string, seconds: string)

  datatype AssertData = AssertData(
    failed: bool, kind: string, file: string, line: string, expr: string, exception: Option<string>,
    exceptionType: Option<string>, exceptionString: Option<string>, isNormal: bool, decomp: string)

  datatype MessageData = MessageData(severity: string, file: string, line: string, text: string)

  datatype Callback =
    | TestRunStart
    | TestCaseStart(data: TestCaseData)
    | TestCaseReenter
    | TestCaseEnd(stats: Stats)
    | TestCaseSkipped(data: TestCaseData)
    | TestCaseException(text: string, crash: bool)
    | SubcaseStart(name: string, file: string, line: string)
    | SubcaseEnd
    | LogAssert(a: AssertData, contexts: seq<string>)
    | LogMessage(m: MessageData, contexts: seq<string>)
    | TestRunEnd(stats: Stats)

  // ----- the names of elements and attributes -----

  const INFO: Tag := "Info"
  const FILENAME: Tag := "filename"
  const LINE: Tag := "line"
  const TEST_SUITE: Tag := "TestSuite"
  const NAME: Tag := "name"
  const TEST_CASE: Tag := "TestCase"
  const DESCRIPTION: Tag := "description"
  const TIMEOUT: Tag := "timeout"
  const MAY_FAIL: Tag := "may_fail"
  const SHOULD_FAIL: Tag := "should_fail"
  const DOCTEST: Tag := "doctest"
  const BINARY: Tag := "binary"
  const VERSION: Tag := "version"
  const OPTIONS: Tag := "Options"
  const ORDER_BY: Tag := "order_by"
  const RAND_SEED: Tag := "rand_seed"
  const FIRST: Tag := "first"
  const LAST: Tag := "last"
  const ABORT_AFTER: Tag := "abort_after"
  const SUBCASE_FILTER_LEVELS: Tag := "subcase_filter_levels"
  const CASE_SENSITIVE: Tag := "case_sensitive"
  const NO_THROW: Tag := "no_throw"
  const NO_SKIP: Tag := "no_skip"
  const OVERALL_RESULTS_ASSERTS: Tag := "OverallResultsAsserts"
  const SUCCESSES: Tag := "successes"
  const FAILURES: Tag := "failures"
  const OVERALL_RESULTS_TEST_CASES: Tag := "OverallResultsTestCases"
  const SKIPPED: Tag := "skipped"
  const DURATION: Tag := "duration"
  const EXPECTED_FAILURES: Tag := "expected_failures"
  const EXCEPTION: Tag := "Exception"
  const CRASH: Tag := "crash"
  const SUB_CASE: Tag := "SubCase"
  const EXPRESSION: Tag := "Expression"
  const SUCCESS: Tag := "success"
  const TYPE: Tag := "type"
  const ORIGINAL: Tag := "Original"
  const EXPECTED_EXCEPTION: Tag := "ExpectedException"
  const EXPECTED_EXCEPTION_STRING: Tag := "ExpectedExceptionString"
  const EXPANDED: Tag := "Expanded"
  const MESSAGE: Tag := "Message"
  const TEXT: Tag := "Text"

  // ----- the protocol -----

  /** Where a run stands: the suite of the latest test case, and the number of subcases entered. */
  datatype Phase =
    | NotStarted
    | BetweenCases(suite: Option<string>)
    | InCase(current: string, depth: nat)
    | Finished

  /** Which callback may come when. */
  function Next(opt: Options, phase: Phase, cb: Callback): Option<Phase> {
    match (phase, cb)
    case (NotStarted, TestRunStart) => Some(BetweenCases(None))
    case (BetweenCases(_), TestCaseStart(data)) => Some(InCase(data.suite, 0))
    case (BetweenCases(s), TestCaseSkipped(data)) =>
      Some(BetweenCases(if opt.noSkippedSummary then s else Some(data.suite)))
    case (BetweenCases(_), TestRunEnd(_)) => Some(Finished)
    case (InCase(s, d), TestCaseReenter) => if d == 0 then Some(phase) else None
    case (InCase(s, d), TestCaseEnd(_)) => if d == 0 then Some(BetweenCases(Some(s))) else None
    case (InCase(s, d), SubcaseStart(_, _, _)) => Some(InCase(s, d + 1))
    case (InCase(s, d), SubcaseEnd) => if d > 0 then Some(InCase(s, d - 1)) else None
    case (InCase(_, _), TestCaseException(_, _)) => Some(phase)
    case (InCase(_, _), LogAssert(_, _)) => Some(phase)
    case (InCase(_, _), LogMessage(_, _)) => Some(phase)
    case _ => None
  }

  function SubCaseTags(depth: nat): (tags: seq<string>)
    ensures |tags| == depth
  {
    seq(depth, _ => SUB_CASE)
  }

  /** The open elements in each phase. */
  function TagsOf(phase: Phase): seq<string> {
    match phase
    case NotStarted => []
    case BetweenCases(None) => [DOCTEST]
    case BetweenCases(Some(_)) => [DOCTEST, TEST_SUITE]
    case InCase(_, depth) => [DOCTEST, TEST_SUITE, TEST_CASE] + SubCaseTags(depth)
    case Finished => []
  }

  // ----- what a reader of the output sees of each callback -----

  function Attributed(d: Doc, name: Tag, value: string): (r: Doc)
    ensures r.tags == d.tags
  {
    if value == "" then d else Noted(d, Attribute(name, Encode(value, 0, true)))
  }

  function Flagged(d: Doc, name: Tag, value: bool): (r: Doc)
    ensures r.tags == d.tags
  {
    Noted(d, Attribute(name, if value then "true" else "false"))
  }

  function MaybeAttributed(d: Doc, name: Tag, value: Option<string>): (r: Doc)
    ensures r.tags == d.tags
  {
    if value.Some? then Attributed(d, name, value.value) else d
  }

  function Located(d: Doc, file: string, line: string): (r: Doc)
    ensures r.tags == d.tags
  {
    Attributed(Attributed(d, FILENAME, file), LINE, line)
  }

  /** An element with text only. */
  function Texted(d: Doc, name: Tag, text: string): (r: Doc)
    ensures r.tags == d.tags
  {
    Closed(WithText(Opened(d, name), Encode(text, 0, false)))
  }

  function MaybeTexted(d: Doc, name: Tag, text: Option<string>): (r: Doc)
    ensures r.tags == d.tags
  {
    if text.Some? then Texted(d, name, text.value) else d
  }

  function Informed(d: Doc, contexts: seq<string>): (r: Doc)
    ensures r.tags == d.tags
    decreases |contexts|
  {
    if contexts == [] then d
    else Texted(Informed(d, contexts[..|contexts| - 1]), INFO, contexts[|contexts| - 1])
  }

  function SuiteOpened(d: Doc, suite: string): (r: Doc)
    ensures r.tags == d.tags + [TEST_SUITE]
  {
    Attributed(Opened(d, TEST_SUITE), NAME, suite)
  }

  /** The suite element stays open from case to case until the suite changes. */
  function CaseOpened(d: Doc, tc: Option<TestCaseData>, data: TestCaseData): (r: Doc)
    requires tc.Some? ==> d.tags != []
    ensures tc.None? ==> r.tags == d.tags + [TEST_SUITE, TEST_CASE]
    ensures tc.Some? && d.tags[|d.tags| - 1] == TEST_SUITE ==> r.tags == d.tags + [TEST_CASE]
  {
    var inSuite :=
      if tc.None? then SuiteOpened(d, data.suite)
      else if tc.value.suite != data.suite then SuiteOpened(Closed(d), data.suite)
      else d;
    var c := Located(Attributed(Opened(inSuite, TEST_CASE), NAME, data.name), data.file, data.line);
    var e := MaybeAttributed(Attributed(c, DESCRIPTION, data.description), TIMEOUT, data.timeout);
    var f := if data.mayFail then Flagged(e, MAY_FAIL, true) else e;
    if data.shouldFail then Flagged(f, SHOULD_FAIL, true) else f
  }

  function AssertLogged(d: Doc, opt: Options, a: AssertData, contexts: seq<string>): (r: Doc)
    ensures r.tags == d.tags
  {
    if !a.failed && !opt.success then d
    else
      var e := Located(Attributed(Flagged(Opened(d, EXPRESSION), SUCCESS, !a.failed), TYPE, a.kind), a.file, a.line);
      var f := MaybeTexted(Texted(e, ORIGINAL, a.expr), EXCEPTION, a.exception);
      var g := MaybeTexted(MaybeTexted(f, EXPECTED_EXCEPTION, a.exceptionType),
                           EXPECTED_EXCEPTION_STRING, a.exceptionString);
      var h := if a.isNormal && a.exception.None? then Texted(g, EXPANDED, a.decomp) else g;
      Closed(Informed(h, contexts))
  }

  function MessageLogged(d: Doc, m: MessageData, contexts: seq<string>): (r: Doc)
    ensures r.tags == d.tags
  {
    var e := Located(Attributed(Opened(d, MESSAGE), TYPE, m.severity), m.file, m.line);
    Closed(Informed(Texted(e, TEXT, m.text), contexts))
  }

  function RunOpened(d: Doc, opt: Options): (r: Doc)
    ensures r.tags == d.tags + [DOCTEST]
  {
    var root := MaybeAttributed(Attributed(Opened(d, DOCTEST), BINARY, opt.binaryName), VERSION, opt.version);
    Closed(OptionsListed(Opened(root, OPTIONS), opt))
  }

  function OptionsListed(d: Doc, opt: Options): (r: Doc)
    ensures r.tags == d.tags
  {
    var a := Attributed(Attributed(d, ORDER_BY, opt.orderBy), RAND_SEED, opt.randSeed);
    var b := Attributed(Attributed(Attributed(a, FIRST, opt.first), LAST, opt.last), ABORT_AFTER, opt.abortAfter);
    var c := Flagged(Attributed(b, SUBCASE_FILTER_LEVELS, opt.subcaseFilterLevels), CASE_SENSITIVE, opt.caseSensitive);
    Flagged(Flagged(c, NO_THROW, opt.noThrow), NO_SKIP, opt.noSkip)
  }

  /** The summary closes the suite, if there is one, and the root. */
  function RunClosed(d: Doc, opt: Options, tc: Option<TestCaseData>, stats: Stats): (r: Doc)
    requires |d.tags| == if tc.Some? then 2 else 1
    ensures r.tags == []
  {
    var root := if tc.Some? then Closed(d) else d;
    var asserts := Attributed(Attributed(Opened(root, OVERALL_RESULTS_ASSERTS), SUCCESSES, stats.successes),
                              FAILURES, stats.failures);
    var cases := Attributed(Attributed(Opened(Closed(asserts), OVERALL_RESULTS_TEST_CASES),
                                       SUCCESSES, stats.caseSuccesses),
                            FAILURES, stats.caseFailures);
    Closed(Closed(if opt.noSkippedSummary then cases else Attributed(cases, SKIPPED, stats.skipped)))
  }

  function CaseClosed(d: Doc, opt: Options, tc: TestCaseData, stats: Stats): (r: Doc)
    requires d.tags != []
    ensures r.tags == d.tags[..|d.tags| - 1]
  {
    var a := Attributed(Attributed(Opened(d, OVERALL_RESULTS_ASSERTS), SUCCESSES, stats.successes),
                        FAILURES, stats.failures);
    var b := if opt.duration then Attributed(a, DURATION, stats.seconds) else a;
    Closed(Closed(MaybeAttributed(b, EXPECTED_FAILURES, tc.expectedFailures)))
  }

  function CaseSkipped(d: Doc, tc: Option<TestCaseData>, data: TestCaseData): (r: Doc)
    requires d.tags == if tc.Some? then [DOCTEST, TEST_SUITE] else [DOCTEST]
    ensures r.tags == [DOCTEST, TEST_SUITE]
  {
    Closed(Attributed(CaseOpened(d, tc, data), SKIPPED, "true"))
  }

  function ExceptionLogged(d: Doc, text: string, crash: bool): (r: Doc)
    ensures r.tags == d.tags
  {
    Closed(WithText(Flagged(Opened(d, EXCEPTION), CRASH, crash), Encode(text, 0, false)))
  }

  function SubcaseOpened(d: Doc, name: string, file: string, line: string): (r: Doc)
    ensures r.tags == d.tags + [SUB_CASE]
  {
    Located(Attributed(Opened(d, SUB_CASE), NAME, name), file, line)
  }

  lemma CaseTags(suite: string, depth: nat)
    ensures TagsOf(InCase(suite, 0)) == [DOCTEST, TEST_SUITE, TEST_CASE]
    ensures TagsOf(InCase(suite, depth + 1)) == TagsOf(InCase(suite, depth)) + [SUB_CASE]
    ensures TagsOf(InCase(suite, depth + 1))[..|TagsOf(InCase(suite, depth + 1))| - 1] == TagsOf(InCase(suite, depth))
  {
    assert SubCaseTags(depth + 1) == SubCaseTags(depth) + [SUB_CASE];
  }

  /** The reporter's memory and the document written. */
  datatype View = View(tc: Option<TestCaseData>, doc: Doc)

  /** The open elements are those of the phase, and the reporter remembers the latest suite. */
  predicate Fits(phase: Phase, v: View) {
    && v.doc.tags == TagsOf(phase)
    && match phase
       case NotStarted => v.tc.None?
       case BetweenCases(None) => v.tc.None?
       case BetweenCases(Some(s)) => v.tc.Some? && v.tc.value.suite == s
       case InCase(s, _) => v.tc.Some? && v.tc.value.suite == s
       case Finished => true
  }

  /** What one callback adds. */
  function Shown(opt: Options, phase: Phase, v: View, cb: Callback): View
    requires Fits(phase, v) && Next(opt, phase, cb).Some?
  {
    var d := v.doc;
    match cb
    case TestRunStart => v.(doc := RunOpened(d, opt))
    case TestCaseStart(data) => View(Some(data), CaseOpened(d, v.tc, data))
    case TestCaseReenter => v
    case TestCaseEnd(stats) => v.(doc := CaseClosed(d, opt, v.tc.value, stats))
    case TestCaseSkipped(data) =>
      if opt.noSkippedSummary then v else View(Some(data), CaseSkipped(d, v.tc, data))
    case TestCaseException(text, crash) => v.(doc := ExceptionLogged(d, text, crash))
    case SubcaseStart(name, file, line) => v.(doc := SubcaseOpened(d, name, file, line))
    case SubcaseEnd => v.(doc := Closed(d))
    case LogAssert(a, contexts) => v.(doc := AssertLogged(d, opt, a, contexts))
    case LogMessage(m, contexts) => v.(doc := MessageLogged(d, m, contexts))
    case TestRunEnd(stats) => v.(doc := RunClosed(d, opt, v.tc, stats))
  }

  /** Whichever callback may come, the open elements fit the next phase again. */
  lemma ShownFits(opt: Options, phase: Phase, v: View, cb: Callback)
    requires Fits(phase, v) && Next(opt, phase, cb).Some?
    ensures Fits(Next(opt, phase, cb).value, Shown(opt, phase, v, cb))
  {
    hide RunOpened, CaseOpened, CaseClosed, CaseSkipped, ExceptionLogged, SubcaseOpened, AssertLogged, MessageLogged,
      RunClosed, SubCaseTags;
    if phase.InCase? {
      ShownFitsInCase(opt, phase, v, cb);
    } else if cb.TestCaseStart? {
      CaseTags(cb.data.suite, 0);
    }
  }

  lemma ShownFitsInCase(opt: Options, phase: Phase, v: View, cb: Callback)
    requires phase.InCase? && Fits(phase, v) && Next(opt, phase, cb).Some?
    ensures Fits(Next(opt, phase, cb).value, Shown(opt, phase, v, cb))
  {
    hide RunOpened, CaseOpened, CaseClosed, CaseSkipped, ExceptionLogged, SubcaseOpened, AssertLogged, MessageLogged,
      RunClosed, SubCaseTags;
    CaseTags(phase.current, phase.depth);
    if phase.depth > 0 {
      CaseTags(phase.current, phase.depth - 1);
    }
  }

  function ShownAll(opt: Options, phase: Phase, v: View, cbs: seq<Callback>): (r: View)
    requires Fits(phase, v) && After(opt, phase, cbs).Some?
    ensures Fits(After(opt, phase, cbs).value, r)
    decreases |cbs|
  {
    if cbs == [] then v
    else
      ShownFits(opt, phase, v, cbs[0]);
      ShownAll(opt, Next(opt, phase, cbs[0]).value, Shown(opt, phase, v, cbs[0]), cbs[1..])
  }

  // ----- the reporter -----

  class XmlReporter {
    const xml: XmlWriter
    const opt: Options
    var tc: Option<TestCaseData>

    constructor (opt: Options)
      ensures xml.Valid() && Now() == View(None, Doc([], [])) && this.opt == opt && fresh(xml)
    {
      xml := new XmlWriter();
      this.opt := opt;
      tc := None;
    }

    ghost function Now(): View
      requires xml.Valid()
      reads this, xml
    {
      View(tc, xml.Document())
    }

    // The writer's methods as the callbacks use them: only what becomes of the document.

    method Open(name: Tag)
      requires xml.Valid()
      modifies xml
      ensures xml.Valid() && xml.mTagIsOpen && xml.Document() == Opened(old(xml.Document()), name)
    {
      xml.StartElement(name);
    }

    method Close()
      requires xml.Valid() && xml.Document().tags != []
      modifies xml
      ensures xml.Valid() && xml.Document() == Closed(old(xml.Document()))
    {
      xml.EndElement();
    }

    method PutAttribute(name: Tag, value: string)
      requires xml.Valid() && xml.mTagIsOpen
      modifies xml`os
      ensures xml.Valid() && xml.Document() == Attributed(old(xml.Document()), name, value)
    {
      xml.WriteAttribute(name, value);
    }

    method PutFlag(name: Tag, value: bool)
      requires xml.Valid() && xml.mTagIsOpen
      modifies xml`os
      ensures xml.Valid() && xml.Document() == Flagged(old(xml.Document()), name, value)
    {
      xml.WriteFlag(name, value);
    }

    method PutText(text: string)
      requires xml.Valid() && xml.Document().tags != []
      modifies xml
      ensures xml.Valid() && xml.Document() == WithText(old(xml.Document()), Encode(text, 0, false))
    {
      xml.WriteText(text, true);
    }

    /** `scopedElement(name)` with its text, closed again by the destructor. */
    method TextElement(name: Tag, text: string)
      requires xml.Valid()
      modifies xml
      ensures xml.Valid() && xml.Document() == Texted(old(xml.Document()), name, text)
    {
      hide XmlWriter.Valid, XmlWriter.Document, Encode;
      Open(name);
      PutText(text);
      Close();
    }

    method LogContexts(contexts: seq<string>)
      requires xml.Valid()
      modifies xml
      ensures xml.Valid() && xml.Document() == Informed(old(xml.Document()), contexts)
    {
      hide XmlWriter.Valid, XmlWriter.Document, Encode;
      for i := 0 to |contexts|
        invariant xml.Valid() && xml.Document() == Informed(old(xml.Document()), contexts[..i])
      {
        TextElement(INFO, contexts[i]);
        assert contexts[..i + 1][..i] == contexts[..i];
      }
      assert contexts[..|contexts|] == contexts;
    }

    method PutLocation(file: string, line: string)
      requires xml.Valid() && xml.mTagIsOpen
      modifies xml`os
      ensures xml.Valid() && xml.Document() == Located(old(xml.Document()), file, line)
    {
      hide XmlWriter.Valid, XmlWriter.Document, Attributed;
      PutAttribute(FILENAME, file);
      PutAttribute(LINE, line);
    }

    method TestCaseStartImpl(data: TestCaseData)
      requires xml.Valid() && (tc.Some? ==> xml.Document().tags != [])
      modifies this`tc, xml
      ensures xml.Valid() && xml.mTagIsOpen
      ensures xml.Document() == CaseOpened(old(xml.Document()), old(tc), data) && tc == Some(data)
    {
      hide XmlWriter.Valid, XmlWriter.Document, Attributed, Flagged, Located;
      var openTsTag := false;
      if tc.Some? {
        if tc.value.suite != data.suite {
          Close();
          openTsTag := true;
        }
      } else {
        openTsTag := true;
      }
      if openTsTag {
        Open(TEST_SUITE);
        PutAttribute(NAME, data.suite);
      }
      tc := Some(data);
      Open(TEST_CASE);
      PutAttribute(NAME, data.name);
      PutLocation(data.file, data.line);
      PutAttribute(DESCRIPTION, data.description);
      if data.timeout.Some? {
        PutAttribute(TIMEOUT, data.timeout.value);
      }
      if data.mayFail {
        PutFlag(MAY_FAIL, true);
      }
      if data.shouldFail {
        PutFlag(SHOULD_FAIL, true);
      }
    }

    method OnTestRunStart()
      requires xml.Valid()
      modifies xml
      ensures xml.Valid() && xml.Document() == RunOpened(old(xml.Document()), opt)
    {
      hide XmlWriter.Valid, XmlWriter.Document, Attributed, Flagged, OptionsListed;
      Open(DOCTEST);
      PutAttribute(BINARY, opt.binaryName);
      if opt.version.Some? {
        PutAttribute(VERSION, opt.version.value);
      }
      Open(OPTIONS);
      PutOptions();
      Close();
    }

    method PutOptions()
      requires xml.Valid() && xml.mTagIsOpen
      modifies xml`os
      ensures xml.Valid() && xml.Document() == OptionsListed(old(xml.Document()), opt)
    {
      hide XmlWriter.Valid, XmlWriter.Document, Attributed, Flagged;
      PutAttribute(ORDER_BY, opt.orderBy);
      PutAttribute(RAND_SEED, opt.randSeed);
      PutAttribute(FIRST, opt.first);
      PutAttribute(LAST, opt.last);
      PutAttribute(ABORT_AFTER, opt.abortAfter);
      PutAttribute(SUBCASE_FILTER_LEVELS, opt.subcaseFilterLevels);
      PutFlag(CASE_SENSITIVE, opt.caseSensitive);
      PutFlag(NO_THROW, opt.noThrow);
      PutFlag(NO_SKIP, opt.noSkip);
    }

    method OnTestRunEnd(stats: Stats)
      requires xml.Valid() && |xml.Document().tags| == if tc.Some? then 2 else 1
      modifies xml
      ensures xml.Valid() && xml.Document() == RunClosed(old(xml.Document()), opt, tc, stats)
    {
      hide XmlWriter.Valid, XmlWriter.Document, Attributed;
      if tc.Some? {
        Close();
      }
      Open(OVERALL_RESULTS_ASSERTS);
      PutAttribute(SUCCESSES, stats.successes);
      PutAttribute(FAILURES, stats.failures);
      Close();
      Open(OVERALL_RESULTS_TEST_CASES);
      PutAttribute(SUCCESSES, stats.caseSuccesses);
      PutAttribute(FAILURES, stats.caseFailures);
      if !opt.noSkippedSummary {
        PutAttribute(SKIPPED, stats.skipped);
      }
      Close();
      Close();
    }

    method OnTestCaseStart(data: TestCaseData)
      requires xml.Valid() && (tc.Some? ==> xml.Document().tags != [])
      modifies this`tc, xml
      ensures xml.Valid() && tc == Some(data) && xml.Document() == CaseOpened(old(xml.Document()), old(tc), data)
    {
      TestCaseStartImpl(data);
      xml.EnsureTagClosed();
    }

    method OnTestCaseSkipped(data: TestCaseData)
      requires xml.Valid() && xml.Document().tags == if tc.Some? then [DOCTEST, TEST_SUITE] else [DOCTEST]
      modifies this`tc, xml
      ensures xml.Valid() && tc == (if opt.noSkippedSummary then old(tc) else Some(data))
      ensures xml.Document() ==
        if opt.noSkippedSummary then old(xml.Document()) else CaseSkipped(old(xml.Document()), old(tc), data)
    {
      hide XmlWriter.Valid, XmlWriter.Document, Attributed;
      if !opt.noSkippedSummary {
        TestCaseStartImpl(data);
        PutAttribute(SKIPPED, "true");
        Close();
      }
    }

    method OnTestCaseEnd(stats: Stats)
      requires xml.Valid() && tc.Some? && xml.Document().tags != []
      modifies xml
      ensures xml.Valid() && xml.Document() == CaseClosed(old(xml.Document()), opt, tc.value, stats)
    {
      hide XmlWriter.Valid, XmlWriter.Document, Attributed;
      Open(OVERALL_RESULTS_ASSERTS);
      PutAttribute(SUCCESSES, stats.successes);
      PutAttribute(FAILURES, stats.failures);
      if opt.duration {
        PutAttribute(DURATION, stats.seconds);
      }
      if tc.value.expectedFailures.Some? {
        PutAttribute(EXPECTED_FAILURES, tc.value.expectedFailures.value);
      }
      Close();
      Close();
    }

    method OnTestCaseException(text: string, crash: bool)
      requires xml.Valid()
      modifies xml
      ensures xml.Valid() && xml.Document() == ExceptionLogged(old(xml.Document()), text, crash)
    {
      hide XmlWriter.Valid, XmlWriter.Document, Flagged, Encode;
      Open(EXCEPTION);
      PutFlag(CRASH, crash);
      PutText(text);
      Close();
    }

    method OnSubcaseStart(name: string, file: string, line: string)
      requires xml.Valid()
      modifies xml
      ensures xml.Valid() && xml.Document() == SubcaseOpened(old(xml.Document()), name, file, line)
    {
      Open(SUB_CASE);
      PutAttribute(NAME, name);
      PutLocation(file, line);
      xml.EnsureTagClosed();
    }

    method OnLogAssert(a: AssertData, contexts: seq<string>)
      requires xml.Valid()
      modifies xml
      ensures xml.Valid() && xml.Document() == AssertLogged(old(xml.Document()), opt, a, contexts)
    {
      hide XmlWriter.Valid, XmlWriter.Document, Attributed, Flagged, Located, Texted, Informed;
      if !a.failed && !opt.success {
        return;
      }
      Open(EXPRESSION);
      PutFlag(SUCCESS, !a.failed);
      PutAttribute(TYPE, a.kind);
      PutLocation(a.file, a.line);
      TextElement(ORIGINAL, a.expr);
      if a.exception.Some? {
        TextElement(EXCEPTION, a.exception.value);
      }
      if a.exceptionType.Some? {
        TextElement(EXPECTED_EXCEPTION, a.exceptionType.value);
      }
      if a.exceptionString.Some? {
        TextElement(EXPECTED_EXCEPTION_STRING, a.exceptionString.value);
      }
      if a.isNormal && a.exception.None? {
        TextElement(EXPANDED, a.decomp);
      }
      LogContexts(contexts);
      Close();
    }

    method OnLogMessage(m: MessageData, contexts: seq<string>)
      requires xml.Valid()
      modifies xml
      ensures xml.Valid() && xml.Document() == MessageLogged(old(xml.Document()), m, contexts)
    {
      hide XmlWriter.Valid, XmlWriter.Document, Attributed, Located, Texted, Informed;
      Open(MESSAGE);
      PutAttribute(TYPE, m.severity);
      PutLocation(m.file, m.line);
      TextElement(TEXT, m.text);
      LogContexts(contexts);
      Close();
    }

    /** Any callback that may come now: a reader of the characters sees exactly what it stands for, and
      the open elements fit the next phase. */
    method Deliver(cb: Callback, ghost phase: Phase)
      requires xml.Valid() && Fits(phase, Now()) && Next(opt, phase, cb).Some?
      modifies this`tc, xml
      ensures xml.Valid() && Now() == Shown(opt, phase, old(Now()), cb)
    {
      hide XmlWriter.Valid, XmlWriter.Document;
      match cb
      case TestRunStart => OnTestRunStart();
      case TestCaseStart(data) => OnTestCaseStart(data);
      case TestCaseReenter =>
      case TestCaseEnd(stats) => OnTestCaseEnd(stats);
      case TestCaseSkipped(data) => OnTestCaseSkipped(data);
      case TestCaseException(text, crash) => OnTestCaseException(text, crash);
      case SubcaseStart(name, file, line) => OnSubcaseStart(name, file, line);
      case SubcaseEnd => Close();
      case LogAssert(a, contexts) => OnLogAssert(a, contexts);
      case LogMessage(m, contexts) => OnLogMessage(m, contexts);
      case TestRunEnd(stats) => OnTestRunEnd(stats);
    }

    /** A whole sequence of callbacks. */
    method DeliverAll(cbs: seq<Callback>, ghost phase: Phase)
      requires xml.Valid() && Fits(phase, Now()) && After(opt, phase, cbs).Some?
      modifies this`tc, xml
      ensures xml.Valid() && Now() == ShownAll(opt, phase, old(Now()), cbs)
    {
      hide XmlWriter.Valid, XmlWriter.Document, Shown;
      ghost var before := Now();
      ghost var now := phase;
      for i := 0 to |cbs|
        invariant xml.Valid() && Fits(now, Now()) && After(opt, now, cbs[i..]).Some?
        invariant ShownAll(opt, now, Now(), cbs[i..]) == ShownAll(opt, phase, before, cbs)
      {
        ShownFits(opt, now, Now(), cbs[i]);
        Deliver(cbs[i], now);
        now := Next(opt, now, cbs[i]).value;
      }
    }
  }

  // ----- what the engine sends -----

  /** The phase after a sequence of callbacks, if each of them may come. */
  function After(opt: Options, phase: Phase, cbs: seq<Callback>): Option<Phase>
    decreases |cbs|
  {
    if cbs == [] then Some(phase)
    else match Next(opt, phase, cbs[0])
         case None => None
         case Some(next) => After(opt, next, cbs[1..])
  }

  lemma AfterNone(opt: Options, phase: Phase)
    ensures After(opt, phase, []) == Some(phase)
  {
  }

  lemma AfterOne(opt: Options, phase: Phase, cb: Callback, rest: seq<Callback>)
    ensures After(opt, phase, [cb] + rest) ==
      match Next(opt, phase, cb) { case None => None case Some(next) => After(opt, next, rest) }
  {
    assert ([cb] + rest)[1..] == rest;
  }

  lemma {:induction false} AfterAppend(opt: Options, phase: Phase, a: seq<Callback>, b: seq<Callback>)
    ensures After(opt, phase, a + b) ==
      match After(opt, phase, a) { case None => None case Some(mid) => After(opt, mid, b) }
    decreases |a|
  {
    if a == [] {
      assert a + b == b;
    } else {
      assert (a + b)[1..] == a[1..] + b;
      match Next(opt, phase, a[0])
      case None =>
      case Some(next) => AfterAppend(opt, next, a[1..], b);
    }
  }

  /** One execution of a test body: what it logs, and the subcases it enters. */
  datatype Script =
    | Stop
    | Log(cb: Callback, rest: Script)
    | Sub(name: string, file: string, line: string, inner: Script, rest: Script)

  predicate LogsOnly(s: Script) {
    match s
    case Stop => true
    case Log(cb, rest) => (cb.LogAssert? || cb.LogMessage? || cb.TestCaseException?) && LogsOnly(rest)
    case Sub(_, _, _, inner, rest) => LogsOnly(inner) && LogsOnly(rest)
  }

  function Emit(s: Script): seq<Callback> {
    match s
    case Stop => []
    case Log(cb, rest) => [cb] + Emit(rest)
    case Sub(name, file, line, inner, rest) =>
      [SubcaseStart(name, file, line)] + (Emit(inner) + ([SubcaseEnd] + Emit(rest)))
  }

  lemma {:induction false} EmitIsLegal(opt: Options, s: Script, suite: string, depth: nat)
    requires LogsOnly(s)
    ensures After(opt, InCase(suite, depth), Emit(s)) == Some(InCase(suite, depth))
  {
    hide After;
    match s
    case Stop =>
      AfterNone(opt, InCase(suite, depth));
    case Log(cb, rest) =>
      EmitIsLegal(opt, rest, suite, depth);
      AfterOne(opt, InCase(suite, depth), cb, Emit(rest));
    case Sub(name, file, line, inner, rest) =>
      var tail := [SubcaseEnd] + Emit(rest);
      AfterOne(opt, InCase(suite, depth), SubcaseStart(name, file, line), Emit(inner) + tail);
      EmitIsLegal(opt, inner, suite, depth + 1);
      AfterAppend(opt, InCase(suite, depth + 1), Emit(inner), tail);
      AfterOne(opt, InCase(suite, depth + 1), SubcaseEnd, Emit(rest));
      EmitIsLegal(opt, rest, suite, depth);
  }

  /** The runs of one test case, with a re-entry in front of each, the first one only if it comes
    `again`. */
  function EmitRuns(runs: seq<Script>, again: bool): seq<Callback>
    decreases |runs|
  {
    if runs == [] then []
    else (if again then [TestCaseReenter] else []) + (Emit(runs[0]) + EmitRuns(runs[1..], true))
  }

  lemma {:induction false} EmitRunsIsLegal(opt: Options, runs: seq<Script>, again: bool, suite: string)
    requires forall s :: s in runs ==> LogsOnly(s)
    ensures After(opt, InCase(suite, 0), EmitRuns(runs, again)) == Some(InCase(suite, 0))
    decreases |runs|
  {
    hide After, LogsOnly, Emit;
    var phase := InCase(suite, 0);
    if runs == [] {
      AfterNone(opt, phase);
    } else {
      var later := EmitRuns(runs[1..], true);
      EmitIsLegal(opt, runs[0], suite, 0);
      EmitRunsIsLegal(opt, runs[1..], true, suite);
      AfterAppend(opt, phase, Emit(runs[0]), later);
      AfterOne(opt, phase, TestCaseReenter, Emit(runs[0]) + later);
      assert [] + (Emit(runs[0]) + later) == Emit(runs[0]) + later;
    }
  }

  datatype Case = Skipped(data: TestCaseData) | Executed(data: TestCaseData, runs: seq<Script>, stats: Stats)

  predicate CaseOk(c: Case) {
    c.Executed? ==> forall s :: s in c.runs ==> LogsOnly(s)
  }

  function EmitCase(c: Case): seq<Callback> {
    match c
    case Skipped(data) => [TestCaseSkipped(data)]
    case Executed(data, runs, stats) => [TestCaseStart(data)] + (EmitRuns(runs, false) + [TestCaseEnd(stats)])
  }

  function EmitCases(cases: seq<Case>): seq<Callback> {
    if cases == [] then [] else EmitCase(cases[0]) + EmitCases(cases[1..])
  }

  lemma CaseIsLegal(opt: Options, c: Case, suite: Option<string>)
    requires CaseOk(c)
    ensures var r := After(opt, BetweenCases(suite), EmitCase(c));
      r.Some? && r.value.BetweenCases?
  {
    if c.Executed? {
      var cbs := EmitCase(c);
      assert cbs[1..] == EmitRuns(c.runs, false) + [TestCaseEnd(c.stats)];
      EmitRunsIsLegal(opt, c.runs, false, c.data.suite);
      AfterAppend(opt, InCase(c.data.suite, 0), EmitRuns(c.runs, false), [TestCaseEnd(c.stats)]);
      assert [TestCaseEnd(c.stats)][1..] == [];
    } else {
      assert EmitCase(c)[1..] == [];
    }
  }

  lemma {:induction false} CasesAreLegal(opt: Options, cases: seq<Case>, suite: Option<string>)
    requires forall c :: c in cases ==> CaseOk(c)
    ensures var r := After(opt, BetweenCases(suite), EmitCases(cases));
      r.Some? && r.value.BetweenCases?
    decreases |cases|
  {
    if cases != [] {
      CaseIsLegal(opt, cases[0], suite);
      var mid := After(opt, BetweenCases(suite), EmitCase(cases[0])).value;
      AfterAppend(opt, BetweenCases(suite), EmitCase(cases[0]), EmitCases(cases[1..]));
      CasesAreLegal(opt, cases[1..], mid.suite);
    }
  }

  /** A run that ends by itself: whatever its cases are, it is legal and closes every element. */
  lemma RunIsLegal(opt: Options, cases: seq<Case>, stats: Stats)
    requires forall c :: c in cases ==> CaseOk(c)
    ensures After(opt, NotStarted, [TestRunStart] + (EmitCases(cases) + [TestRunEnd(stats)])) == Some(Finished)
  {
    var rest := EmitCases(cases) + [TestRunEnd(stats)];
    assert ([TestRunStart] + rest)[1..] == rest;
    CasesAreLegal(opt, cases, None);
    AfterAppend(opt, BetweenCases(None), EmitCases(cases), [TestRunEnd(stats)]);
    assert [TestRunEnd(stats)][1..] == [];
  }
}
