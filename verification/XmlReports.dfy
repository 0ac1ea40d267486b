/** What a listener learns from the reporter's document: all that the callbacks reported, in order. */
module XmlReports {
  import opened Common
  import opened XmlEncoding
  import opened XmlWriters
  import opened XmlReporters
  import opened XmlListeners

  // ----- what the attributes of a test case say -----

  function CasePairs(data: TestCaseData, skipped: bool): Pairs {
    [("name", RawText(data.name)), ("filename", RawText(data.file)), ("line", RawText(data.line)),
     ("description", RawText(data.description)), ("timeout", MaybeRaw(data.timeout)),
     ("may_fail", if data.mayFail then "true" else ""), ("should_fail", if data.shouldFail then "true" else ""),
     ("skipped", if skipped then RawText("true") else "")]
  }

  lemma CaseSays(data: TestCaseData, skipped: bool)
    ensures var r := PutAll(Element(2, "TestCase", map[], []), CasePairs(data, skipped));
      r.depth == 2 &&
      Understood(r) == Case(AsRead(data.name), AsRead(data.file), AsRead(data.line), AsRead(data.description),
                            MaybeRead(data.timeout), data.mayFail, data.shouldFail, skipped)
  {
    hide Value, Flag, Recalls, Decode, Understood, AsCase, RawText, PutAll, AsRead, CasePairs, MaybeRead;
    var e, pairs := Element(2, "TestCase", map[], []), CasePairs(data, skipped);
    var r := PutAll(e, pairs);
    CaseRecalled(data, skipped);
    Dispatch(r);
    CaseTextsSay(r, data, skipped);
    CaseFlagsSay(r, data, skipped);
    CaseUnderstood(r, AsRead(data.name), AsRead(data.file), AsRead(data.line), AsRead(data.description),
                   MaybeRead(data.timeout), data.mayFail, data.shouldFail, skipped);
  }

  lemma CaseRecalled(data: TestCaseData, skipped: bool)
    ensures var e, pairs := Element(2, "TestCase", map[], []), CasePairs(data, skipped);
      var r := PutAll(e, pairs);
      Recalls(r, pairs) && r.name == e.name && r.depth == 2
  {
    Recalled(Element(2, "TestCase", map[], []), CasePairs(data, skipped),
             [4_110, 8_102, 4_108, 11_100, 7_116, 8_109, 11_115, 7_115]);
  }

  lemma CaseTextsSay(r: Element, data: TestCaseData, skipped: bool)
    requires Recalls(r, CasePairs(data, skipped))
    ensures Value(r, "name") == AsRead(data.name) && Value(r, "filename") == AsRead(data.file)
    ensures Value(r, "line") == AsRead(data.line) && Value(r, "description") == AsRead(data.description)
    ensures Value(r, "timeout") == MaybeRead(data.timeout)
  {
    hide Value, Flag, Recalls, Decode, RawText;
    var pairs := CasePairs(data, skipped);
    RawWords();
    Says(r, pairs, 0, "name");
    Says(r, pairs, 1, "filename");
    Says(r, pairs, 2, "line");
    Says(r, pairs, 3, "description");
    Says(r, pairs, 4, "timeout");
  }

  lemma CaseFlagsSay(r: Element, data: TestCaseData, skipped: bool)
    requires Recalls(r, CasePairs(data, skipped))
    ensures Flag(r, "may_fail") == data.mayFail && Flag(r, "should_fail") == data.shouldFail
    ensures Flag(r, "skipped") == skipped
  {
    hide Value, Flag, Recalls, Decode, RawText;
    var pairs := CasePairs(data, skipped);
    RawWords();
    Says(r, pairs, 5, "may_fail");
    Says(r, pairs, 6, "should_fail");
    Says(r, pairs, 7, "skipped");
  }

  lemma CaseUnderstood(e: Element, name: string, file: string, line: string, description: string, timeout: string,
                       mayFail: bool, shouldFail: bool, skipped: bool)
    requires Value(e, "name") == name && Value(e, "filename") == file && Value(e, "line") == line
    requires Value(e, "description") == description && Value(e, "timeout") == timeout
    requires Flag(e, "may_fail") == mayFail && Flag(e, "should_fail") == shouldFail && Flag(e, "skipped") == skipped
    ensures AsCase(e) == Case(name, file, line, description, timeout, mayFail, shouldFail, skipped)
  {
    hide Value, Flag;
  }

  // ----- suites and subcases -----

  lemma SuiteReported(d: Doc, told: seq<Placed>, suite: string)
    requires Reported(d, told) && d.tags == [DOCTEST]
    ensures Reported(SuiteOpened(d, suite), told + [Placed(1, Suite(AsRead(suite)))])
  {
    hide Has, Followed, Reported, Attributed, Opened, Value, Flag, Recalls, Decode, Understood, RawText, PutAll;
    var es := ReportedFollows(d, told);
    var e, pairs := Element(1, "TestSuite", map[], []), [("name", RawText(suite))];
    HasOpened(d, es, TEST_SUITE, pairs);
    NextValue(Opened(d, TEST_SUITE), es, e, pairs, 0, NAME, suite);
    OneMore(SuiteOpened(d, suite), es, told, e, pairs);
    Recalled(e, pairs, [4_110]);
    Says(PutAll(e, pairs), pairs, 0, "name");
    Dispatch(PutAll(e, pairs));
  }

  lemma SubcaseReported(d: Doc, told: seq<Placed>, name: string, file: string, line: string)
    requires Reported(d, told) && !HoldsTexts(d.tags)
    ensures Reported(SubcaseOpened(d, name, file, line),
                     told + [Placed(|d.tags|, Subcase(AsRead(name), AsRead(file), AsRead(line)))])
  {
    hide Has, Followed, Reported, Attributed, Located, Opened, Value, Flag, Recalls, Decode, Understood, AsSubcase,
      RawText, PutAll, HoldsTexts;
    var es := ReportedFollows(d, told);
    var e := Element(|d.tags|, "SubCase", map[], []);
    var pairs := [("name", RawText(name)), ("filename", RawText(file)), ("line", RawText(line))];
    HasOpened(d, es, SUB_CASE, pairs);
    NextValue(Opened(d, SUB_CASE), es, e, pairs, 0, NAME, name);
    NextLocation(Attributed(Opened(d, SUB_CASE), NAME, name), es, e, pairs, 1, file, line);
    OneMore(SubcaseOpened(d, name, file, line), es, told, e, pairs);
    Recalled(e, pairs, [4_110, 8_102, 4_108]);
    var r := PutAll(e, pairs);
    Says(r, pairs, 0, "name");
    Says(r, pairs, 1, "filename");
    Says(r, pairs, 2, "line");
    Dispatch(r);
    SubcaseUnderstood(r, AsRead(name), AsRead(file), AsRead(line));
  }

  lemma SubcaseUnderstood(e: Element, name: string, file: string, line: string)
    requires Value(e, "name") == name && Value(e, "filename") == file && Value(e, "line") == line
    ensures AsSubcase(e) == Subcase(name, file, line)
  {
    hide Value;
  }

  // ----- a test case in its suite -----

  /** The document with the right suite open. */
  lemma InSuite(d: Doc, told: seq<Placed>, tc: Option<TestCaseData>, data: TestCaseData) returns (r: Doc)
    requires Reported(d, told) && d.tags == if tc.Some? then [DOCTEST, TEST_SUITE] else [DOCTEST]
    ensures Reported(r, told + SuiteTold(tc, data)) && r.tags == [DOCTEST, TEST_SUITE]
    ensures r == if tc.None? then SuiteOpened(d, data.suite)
                 else if tc.value.suite != data.suite then SuiteOpened(Closed(d), data.suite)
                 else d
  {
    hide Reported, AsRead;
    r := d;
    assert told + [] == told;
    if tc.None? {
      r := SuiteOpened(d, data.suite);
      SuiteReported(d, told, data.suite);
    } else if tc.value.suite != data.suite {
      r := SuiteOpened(Closed(d), data.suite);
      ReportedClosed(d, told);
      SuiteReported(Closed(d), told, data.suite);
    }
  }

  /** All attributes of a test case but the last, which says whether it was skipped. */
  lemma CaseHeard(d: Doc, told: seq<Placed>, tc: Option<TestCaseData>, data: TestCaseData, skipped: bool)
    returns (es: seq<Element>)
    requires Reported(d, told) && d.tags == if tc.Some? then [DOCTEST, TEST_SUITE] else [DOCTEST]
    ensures AllUnderstood(es) == told + SuiteTold(tc, data)
    ensures Has(CaseOpened(d, tc, data), es, Element(2, "TestCase", map[], []), CasePairs(data, skipped)[..7])
  {
    hide Has, Followed, Reported, Attributed, MaybeAttributed, Flagged, Located, Opened, Closed, RawText,
      SuiteOpened, SuiteTold;
    var inSuite := InSuite(d, told, tc, data);
    es := ReportedFollows(inSuite, told + SuiteTold(tc, data));
    var e, pairs := Element(2, "TestCase", map[], []), CasePairs(data, skipped);
    HasOpened(inSuite, es, TEST_CASE, pairs);
    NextValue(Opened(inSuite, TEST_CASE), es, e, pairs, 0, NAME, data.name);
    var d1 := Attributed(Opened(inSuite, TEST_CASE), NAME, data.name);
    NextLocation(d1, es, e, pairs, 1, data.file, data.line);
    var d2 := Located(d1, data.file, data.line);
    NextValue(d2, es, e, pairs, 3, DESCRIPTION, data.description);
    var d3 := Attributed(d2, DESCRIPTION, data.description);
    NextMaybe(d3, es, e, pairs, 4, TIMEOUT, data.timeout);
    var d4 := MaybeAttributed(d3, TIMEOUT, data.timeout);
    var d5 := if data.mayFail then Flagged(d4, MAY_FAIL, true) else d4;
    if data.mayFail {
      NextFlag(d4, es, e, pairs, 5, MAY_FAIL, true);
    } else {
      NextNothing(d4, es, e, pairs, 5);
    }
    if data.shouldFail {
      NextFlag(d5, es, e, pairs, 6, SHOULD_FAIL, true);
    } else {
      NextNothing(d5, es, e, pairs, 6);
    }
  }

  lemma CaseReported(d: Doc, told: seq<Placed>, tc: Option<TestCaseData>, data: TestCaseData)
    requires Reported(d, told) && d.tags == if tc.Some? then [DOCTEST, TEST_SUITE] else [DOCTEST]
    ensures Reported(CaseOpened(d, tc, data), told + CaseTold(tc, data, false))
  {
    hide Has, Reported, CaseOpened, PutAll, Understood, AsRead, MaybeRead;
    var es := CaseHeard(d, told, tc, data, false);
    var e, pairs := Element(2, "TestCase", map[], []), CasePairs(data, false);
    NextNothing(CaseOpened(d, tc, data), es, e, pairs, 7);
    OneMore(CaseOpened(d, tc, data), es, told + SuiteTold(tc, data), e, pairs);
    CaseSays(data, false);
    Associates(told, SuiteTold(tc, data), [Placed(2, Understood(PutAll(e, pairs)))]);
  }

  lemma SkippedReported(d: Doc, told: seq<Placed>, tc: Option<TestCaseData>, data: TestCaseData)
    requires Reported(d, told) && d.tags == if tc.Some? then [DOCTEST, TEST_SUITE] else [DOCTEST]
    ensures Reported(CaseSkipped(d, tc, data), told + CaseTold(tc, data, true))
  {
    hide Has, Reported, CaseOpened, PutAll, Understood, AsRead, MaybeRead, RawText;
    var es := CaseHeard(d, told, tc, data, true);
    var e, pairs := Element(2, "TestCase", map[], []), CasePairs(data, true);
    var c := CaseOpened(d, tc, data);
    NextValue(c, es, e, pairs, 7, SKIPPED, "true");
    OneMore(Attributed(c, SKIPPED, "true"), es, told + SuiteTold(tc, data), e, pairs);
    CaseSays(data, true);
    Associates(told, SuiteTold(tc, data), [Placed(2, Understood(PutAll(e, pairs)))]);
    ReportedClosed(Attributed(c, SKIPPED, "true"), told + CaseTold(tc, data, true));
  }

  // ----- assertions and messages -----

  function AssertPairs(a: AssertData): Pairs {
    [("success", RawFlag(!a.failed)), ("type", RawText(a.kind)), ("filename", RawText(a.file)),
     ("line", RawText(a.line))]
  }

  function AssertParts(a: AssertData): Parts {
    [("Original", Some(a.expr)), ("Exception", a.exception), ("ExpectedException", a.exceptionType),
     ("ExpectedExceptionString", a.exceptionString),
     ("Expanded", if a.isNormal && a.exception.None? then Some(a.decomp) else None)]
  }

  lemma AssertHeard(d: Doc, told: seq<Placed>, opt: Options, a: AssertData, contexts: seq<string>)
    requires Reported(d, told) && !HoldsTexts(d.tags) && (a.failed || opt.success)
    ensures var r := Filled(PutAll(Element(|d.tags|, "Expression", map[], []), AssertPairs(a)), AssertParts(a),
                            contexts);
      Reported(AssertLogged(d, opt, a, contexts), told + [Placed(r.depth, Understood(r))])
  {
    hide Has, HasTexts, At, Followed, Reported, Attributed, Flagged, Located, Closed, RawText, RawFlag, PutAll,
      Understood,
      Informed, Texted, Filled;
    var es := ReportedFollows(d, told);
    var e, pairs, parts := Element(|d.tags|, "Expression", map[], []), AssertPairs(a), AssertParts(a);
    HasOpened(d, es, EXPRESSION, pairs);
    var d0 := Opened(d, EXPRESSION);
    NextFlag(d0, es, e, pairs, 0, SUCCESS, !a.failed);
    var d1 := Flagged(d0, SUCCESS, !a.failed);
    NextValue(d1, es, e, pairs, 1, TYPE, a.kind);
    var d2 := Attributed(d1, TYPE, a.kind);
    NextLocation(d2, es, e, pairs, 2, a.file, a.line);
    var d3 := Located(d2, a.file, a.line);
    assert pairs[..4] == pairs;
    var r := PutAll(e, pairs);
    HasIsAt(d3, es, e, pairs);
    AssertRecalled(|d.tags|, a);
    FirstText(d3, es, r, parts);
    NextText(d3, es, r, parts, 0, ORIGINAL, Some(a.expr));
    var d4 := Texted(d3, ORIGINAL, a.expr);
    NextText(d4, es, r, parts, 1, EXCEPTION, a.exception);
    var d5 := MaybeTexted(d4, EXCEPTION, a.exception);
    NextText(d5, es, r, parts, 2, EXPECTED_EXCEPTION, a.exceptionType);
    var d6 := MaybeTexted(d5, EXPECTED_EXCEPTION, a.exceptionType);
    NextText(d6, es, r, parts, 3, EXPECTED_EXCEPTION_STRING, a.exceptionString);
    var d7 := MaybeTexted(d6, EXPECTED_EXCEPTION_STRING, a.exceptionString);
    NextText(d7, es, r, parts, 4, EXPANDED, parts[4].1);
    LastTexts(MaybeTexted(d7, EXPANDED, parts[4].1), es, told, r, parts, contexts);
  }

  lemma AssertRecalled(depth: nat, a: AssertData)
    ensures var e, pairs := Element(depth, "Expression", map[], []), AssertPairs(a);
      var r := PutAll(e, pairs);
      Recalls(r, pairs) && r.name == e.name && r.depth == depth && r.texts == []
  {
    Recalled(Element(depth, "Expression", map[], []), AssertPairs(a), [7_115, 4_116, 8_102, 4_108]);
  }

  lemma AssertSays(depth: nat, a: AssertData, contexts: seq<string>)
    ensures var r := Filled(PutAll(Element(depth, "Expression", map[], []), AssertPairs(a)), AssertParts(a), contexts);
      r.depth == depth &&
      Understood(r) ==
        Assertion(!a.failed, AsRead(a.kind), AsRead(a.file), AsRead(a.line), Some(AsHeard(a.expr)),
                  MaybeHeard(a.exception), MaybeHeard(a.exceptionType), MaybeHeard(a.exceptionString),
                  if a.isNormal && a.exception.None? then Some(AsHeard(a.decomp)) else None, AllHeard(contexts))
  {
    hide Value, Flag, Recalls, Decode, Understood, AsAssertion, RawText, PutAll, Filled, TextOf, TextsOf, AsHeard, Raw,
      PartsDiffer;
    var e := PutAll(Element(depth, "Expression", map[], []), AssertPairs(a));
    var r, pairs, parts := Filled(e, AssertParts(a), contexts), AssertPairs(a), AssertParts(a);
    AssertRecalled(depth, a);
    PartsDifferByKey(parts, [8_079, 9_069, 17_069, 23_069, 8_069]);
    FilledSays(e, parts, contexts);
    SameRaws(e, r, pairs);
    RawWords();
    Dispatch(r);
    Says(r, pairs, 0, "success");
    Says(r, pairs, 1, "type");
    Says(r, pairs, 2, "filename");
    Says(r, pairs, 3, "line");
    assert TextOf(r, parts[0].0) == MaybeHeard(parts[0].1) && TextOf(r, parts[1].0) == MaybeHeard(parts[1].1);
    assert TextOf(r, parts[2].0) == MaybeHeard(parts[2].1) && TextOf(r, parts[3].0) == MaybeHeard(parts[3].1);
    assert TextOf(r, parts[4].0) == MaybeHeard(parts[4].1);
    AssertUnderstood(r, !a.failed, AsRead(a.kind), AsRead(a.file), AsRead(a.line), MaybeHeard(parts[0].1),
                     MaybeHeard(parts[1].1), MaybeHeard(parts[2].1), MaybeHeard(parts[3].1), MaybeHeard(parts[4].1),
                     AllHeard(contexts));
  }

  lemma AssertUnderstood(e: Element, success: bool, kind: string, file: string, line: string, original: Option<string>,
                         exception: Option<string>, exceptionType: Option<string>, exceptionString: Option<string>,
                         expanded: Option<string>, infos: seq<string>)
    requires Flag(e, "success") == success && Value(e, "type") == kind
    requires Value(e, "filename") == file && Value(e, "line") == line
    requires TextOf(e, "Original") == original && TextOf(e, "Exception") == exception
    requires TextOf(e, "ExpectedException") == exceptionType && TextOf(e, "ExpectedExceptionString") == exceptionString
    requires TextOf(e, "Expanded") == expanded && TextsOf(e.texts, "Info") == infos
    ensures AsAssertion(e) ==
      Assertion(success, kind, file, line, original, exception, exceptionType, exceptionString, expanded, infos)
  {
    hide Value, Flag, TextOf, TextsOf;
  }

  function MessagePairs(m: MessageData): Pairs {
    [("type", RawText(m.severity)), ("filename", RawText(m.file)), ("line", RawText(m.line))]
  }

  lemma MessageReported(d: Doc, told: seq<Placed>, m: MessageData, contexts: seq<string>)
    requires Reported(d, told) && !HoldsTexts(d.tags)
    ensures Reported(MessageLogged(d, m, contexts),
                     told + [Placed(|d.tags|, Message(AsRead(m.severity), AsRead(m.file), AsRead(m.line),
                                                      Some(AsHeard(m.text)), AllHeard(contexts)))])
  {
    hide Has, HasTexts, At, Followed, Reported, Attributed, Located, Closed, RawText, PutAll, Understood, Informed,
      Texted, Filled, AsHeard, Recalls, AsRead;
    var es := ReportedFollows(d, told);
    var e, pairs := Element(|d.tags|, "Message", map[], []), MessagePairs(m);
    var parts: Parts := [("Text", Some(m.text))];
    HasOpened(d, es, MESSAGE, pairs);
    var d0 := Opened(d, MESSAGE);
    NextValue(d0, es, e, pairs, 0, TYPE, m.severity);
    var d1 := Attributed(d0, TYPE, m.severity);
    NextLocation(d1, es, e, pairs, 1, m.file, m.line);
    var d2 := Located(d1, m.file, m.line);
    assert pairs[..3] == pairs;
    var r := PutAll(e, pairs);
    HasIsAt(d2, es, e, pairs);
    Recalled(e, pairs, [4_116, 8_102, 4_108]);
    FirstText(d2, es, r, parts);
    NextText(d2, es, r, parts, 0, TEXT, Some(m.text));
    LastTexts(Texted(d2, TEXT, m.text), es, told, r, parts, contexts);
    MessageSays(r, m, contexts);
  }

  lemma MessageSays(e: Element, m: MessageData, contexts: seq<string>)
    requires e.name == "Message" && Recalls(e, MessagePairs(m))
    ensures var r := Filled(e, [("Text", Some(m.text))], contexts);
      r.depth == e.depth &&
      Understood(r) ==
        Message(AsRead(m.severity), AsRead(m.file), AsRead(m.line), Some(AsHeard(m.text)), AllHeard(contexts))
  {
    hide Value, Flag, Recalls, Decode, Understood, AsMessage, RawText, Filled, TextOf, TextsOf, AsHeard, Raw,
      PartsDiffer;
    var parts: Parts := [("Text", Some(m.text))];
    var r, pairs := Filled(e, parts, contexts), MessagePairs(m);
    PartsDifferByKey(parts, [4_084]);
    FilledSays(e, parts, contexts);
    SameRaws(e, r, pairs);
    Dispatch(r);
    Says(r, pairs, 0, "type");
    Says(r, pairs, 1, "filename");
    Says(r, pairs, 2, "line");
    assert TextOf(r, parts[0].0) == MaybeHeard(parts[0].1);
    MessageUnderstood(r, AsRead(m.severity), AsRead(m.file), AsRead(m.line), Some(AsHeard(m.text)), AllHeard(contexts));
  }

  lemma MessageUnderstood(e: Element, severity: string, file: string, line: string, text: Option<string>,
                          infos: seq<string>)
    requires Value(e, "type") == severity && Value(e, "filename") == file && Value(e, "line") == line
    requires TextOf(e, "Text") == text && TextsOf(e.texts, "Info") == infos
    ensures AsMessage(e) == Message(severity, file, line, text, infos)
  {
    hide Value, TextOf, TextsOf;
  }

  // ----- exceptions -----

  lemma ExceptionReported(d: Doc, told: seq<Placed>, text: string, crash: bool)
    requires Reported(d, told) && !HoldsTexts(d.tags)
    ensures Reported(ExceptionLogged(d, text, crash), told + [Placed(|d.tags|, Exception(crash, AsHeard(text)))])
  {
    hide Has, At, Followed, Reported, Flagged, Closed, RawFlag, PutAll, Understood, HeardText, Encode, MoreText,
      AsHeard;
    var es := ReportedFollows(d, told);
    var e, pairs := Element(|d.tags|, "Exception", map[], []), [("crash", RawFlag(crash))];
    HasOpened(d, es, EXCEPTION, pairs);
    NextFlag(Opened(d, EXCEPTION), es, e, pairs, 0, CRASH, crash);
    var d1 := Flagged(Opened(d, EXCEPTION), CRASH, crash);
    assert pairs[..1] == pairs;
    HasIsAt(d1, es, e, pairs);
    var r := PutAll(e, pairs);
    AtWithText(d1, es, r, Encode(text, 0, false));
    TextIsHeard(text);
    ClosedElement(WithText(d1, Encode(text, 0, false)), es, told, MoreText(r, HeardText(text)));
    Recalled(e, pairs, [5_099]);
    ExceptionSays(r, pairs, crash, text);
  }

  lemma ExceptionSays(e: Element, pairs: Pairs, crash: bool, text: string)
    requires e.name == "Exception" && e.texts == [] && pairs == [("crash", RawFlag(crash))] && Recalls(e, pairs)
    ensures var r := MoreText(e, HeardText(text));
      r.depth == e.depth && Understood(r) == Exception(crash, AsHeard(text))
  {
    hide Value, Flag, Decode, Understood, HeardText, Recalls, Raw, AsHeard;
    var r := MoreText(e, HeardText(text));
    SameAttributes(e, r, pairs);
    Says(r, pairs, 0, "crash");
    Dispatch(r);
    RawWords();
    HeardIs(text);
  }

  // ----- summaries -----

  function AssertsPairs(stats: Stats, duration: string, expectedFailures: Option<string>): Pairs {
    [("successes", RawText(stats.successes)), ("failures", RawText(stats.failures)), ("duration", RawText(duration)),
     ("expected_failures", MaybeRaw(expectedFailures))]
  }

  lemma AssertsSay(depth: nat, stats: Stats, duration: string, expectedFailures: Option<string>)
    ensures var r := PutAll(Element(depth, "OverallResultsAsserts", map[], []),
                            AssertsPairs(stats, duration, expectedFailures));
      r.depth == depth &&
      Understood(r) ==
        Asserts(AsRead(stats.successes), AsRead(stats.failures), AsRead(duration), MaybeRead(expectedFailures))
  {
    hide Value, Flag, Recalls, Decode, Understood, AsAsserts, RawText, PutAll;
    var e, pairs := Element(depth, "OverallResultsAsserts", map[], []), AssertsPairs(stats, duration, expectedFailures);
    Recalled(e, pairs, [9_115, 8_102, 8_100, 17_101]);
    RawWords();
    var r := PutAll(e, pairs);
    Dispatch(r);
    Says(r, pairs, 0, "successes");
    Says(r, pairs, 1, "failures");
    Says(r, pairs, 2, "duration");
    Says(r, pairs, 3, "expected_failures");
    AssertsUnderstood(r, AsRead(stats.successes), AsRead(stats.failures), AsRead(duration),
                      MaybeRead(expectedFailures));
  }

  lemma AssertsUnderstood(e: Element, successes: string, failures: string, duration: string, expectedFailures: string)
    requires Value(e, "successes") == successes && Value(e, "failures") == failures
    requires Value(e, "duration") == duration && Value(e, "expected_failures") == expectedFailures
    ensures AsAsserts(e) == Asserts(successes, failures, duration, expectedFailures)
  {
    hide Value;
  }

  lemma CaseSummaryReported(d: Doc, told: seq<Placed>, opt: Options, tc: TestCaseData, stats: Stats)
    requires Reported(d, told) && !HoldsTexts(d.tags) && d.tags != []
    ensures Reported(CaseClosed(d, opt, tc, stats),
                     told + [Placed(|d.tags|, Asserts(AsRead(stats.successes), AsRead(stats.failures),
                                                      if opt.duration then AsRead(stats.seconds) else "",
                                                      MaybeRead(tc.expectedFailures)))])
  {
    hide Has, Followed, Reported, Attributed, MaybeAttributed, RawText, MaybeRaw, PutAll, Understood, AsRead, MaybeRead,
      HoldsTexts;
    var es := ReportedFollows(d, told);
    var duration := if opt.duration then stats.seconds else "";
    var e, pairs := Element(|d.tags|, "OverallResultsAsserts", map[], []),
      AssertsPairs(stats, duration, tc.expectedFailures);
    HasOpened(d, es, OVERALL_RESULTS_ASSERTS, pairs);
    var d0 := Opened(d, OVERALL_RESULTS_ASSERTS);
    NextValue(d0, es, e, pairs, 0, SUCCESSES, stats.successes);
    var d1 := Attributed(d0, SUCCESSES, stats.successes);
    NextValue(d1, es, e, pairs, 1, FAILURES, stats.failures);
    var d2 := Attributed(d1, FAILURES, stats.failures);
    var d3 := if opt.duration then Attributed(d2, DURATION, stats.seconds) else d2;
    NothingRead();
    if opt.duration {
      NextValue(d2, es, e, pairs, 2, DURATION, stats.seconds);
    } else {
      NextNothing(d2, es, e, pairs, 2);
    }
    NextMaybe(d3, es, e, pairs, 3, EXPECTED_FAILURES, tc.expectedFailures);
    var d4 := MaybeAttributed(d3, EXPECTED_FAILURES, tc.expectedFailures);
    OneMore(d4, es, told, e, pairs);
    AssertsSay(|d.tags|, stats, duration, tc.expectedFailures);
    var told' := told + [Placed(|d.tags|, Understood(PutAll(e, pairs)))];
    ReportedClosed(d4, told');
    ReportedClosed(Closed(d4), told');
  }

  lemma TotalsReported(d: Doc, told: seq<Placed>, stats: Stats)
    requires Reported(d, told) && d.tags == [DOCTEST]
    ensures var asserts := Attributed(Attributed(Opened(d, OVERALL_RESULTS_ASSERTS), SUCCESSES, stats.successes),
                                      FAILURES, stats.failures);
      Reported(Closed(asserts), told + [Placed(1, Asserts(AsRead(stats.successes), AsRead(stats.failures), "", ""))])
  {
    hide Has, Followed, Reported, Attributed, RawText, MaybeRaw, PutAll, Understood, AsRead, HoldsTexts;
    OnlyTwo(d.tags);
    var es := ReportedFollows(d, told);
    var e, pairs := Element(1, "OverallResultsAsserts", map[], []), AssertsPairs(stats, "", None);
    HasOpened(d, es, OVERALL_RESULTS_ASSERTS, pairs);
    var d0 := Opened(d, OVERALL_RESULTS_ASSERTS);
    NextValue(d0, es, e, pairs, 0, SUCCESSES, stats.successes);
    var d1 := Attributed(d0, SUCCESSES, stats.successes);
    NextValue(d1, es, e, pairs, 1, FAILURES, stats.failures);
    var d2 := Attributed(d1, FAILURES, stats.failures);
    NothingRead();
    NextNothing(d2, es, e, pairs, 2);
    NextNothing(d2, es, e, pairs, 3);
    OneMore(d2, es, told, e, pairs);
    AssertsSay(1, stats, "", None);
    ReportedClosed(d2, told + [Placed(1, Understood(PutAll(e, pairs)))]);
  }

  function CasesPairs(stats: Stats, skipped: string): Pairs {
    [("successes", RawText(stats.caseSuccesses)), ("failures", RawText(stats.caseFailures)),
     ("skipped", RawText(skipped))]
  }

  lemma CasesReported(d: Doc, told: seq<Placed>, opt: Options, stats: Stats)
    requires Reported(d, told) && d.tags == [DOCTEST]
    ensures var cases := Attributed(Attributed(Opened(d, OVERALL_RESULTS_TEST_CASES), SUCCESSES, stats.caseSuccesses),
                                    FAILURES, stats.caseFailures);
      var skipped := if opt.noSkippedSummary then cases else Attributed(cases, SKIPPED, stats.skipped);
      Reported(Closed(skipped),
               told + [Placed(1, Cases(AsRead(stats.caseSuccesses), AsRead(stats.caseFailures),
                                       if opt.noSkippedSummary then "" else AsRead(stats.skipped)))])
  {
    hide Has, Followed, Reported, Attributed, RawText, MaybeRaw, PutAll, Understood, AsRead, HoldsTexts;
    OnlyTwo(d.tags);
    var es := ReportedFollows(d, told);
    var skipped := if opt.noSkippedSummary then "" else stats.skipped;
    var e, pairs := Element(1, "OverallResultsTestCases", map[], []), CasesPairs(stats, skipped);
    HasOpened(d, es, OVERALL_RESULTS_TEST_CASES, pairs);
    var d0 := Opened(d, OVERALL_RESULTS_TEST_CASES);
    NextValue(d0, es, e, pairs, 0, SUCCESSES, stats.caseSuccesses);
    var d1 := Attributed(d0, SUCCESSES, stats.caseSuccesses);
    NextValue(d1, es, e, pairs, 1, FAILURES, stats.caseFailures);
    var d2 := Attributed(d1, FAILURES, stats.caseFailures);
    var d3 := if opt.noSkippedSummary then d2 else Attributed(d2, SKIPPED, stats.skipped);
    NothingRead();
    if opt.noSkippedSummary {
      NextNothing(d2, es, e, pairs, 2);
    } else {
      NextValue(d2, es, e, pairs, 2, SKIPPED, stats.skipped);
    }
    OneMore(d3, es, told, e, pairs);
    CasesSay(stats, skipped);
    ReportedClosed(d3, told + [Placed(1, Understood(PutAll(e, pairs)))]);
  }

  lemma CasesSay(stats: Stats, skipped: string)
    ensures var r := PutAll(Element(1, "OverallResultsTestCases", map[], []), CasesPairs(stats, skipped));
      r.depth == 1 && Understood(r) == Cases(AsRead(stats.caseSuccesses), AsRead(stats.caseFailures), AsRead(skipped))
  {
    hide Value, Flag, Recalls, Decode, Understood, AsCases, RawText, PutAll;
    var e, pairs := Element(1, "OverallResultsTestCases", map[], []), CasesPairs(stats, skipped);
    Recalled(e, pairs, [9_115, 8_102, 7_115]);
    var r := PutAll(e, pairs);
    Dispatch(r);
    Says(r, pairs, 0, "successes");
    Says(r, pairs, 1, "failures");
    Says(r, pairs, 2, "skipped");
    CasesUnderstood(r, AsRead(stats.caseSuccesses), AsRead(stats.caseFailures), AsRead(skipped));
  }

  lemma CasesUnderstood(e: Element, successes: string, failures: string, skipped: string)
    requires Value(e, "successes") == successes && Value(e, "failures") == failures && Value(e, "skipped") == skipped
    ensures AsCases(e) == Cases(successes, failures, skipped)
  {
    hide Value;
  }

  lemma EndReported(d: Doc, told: seq<Placed>, opt: Options, tc: Option<TestCaseData>, stats: Stats)
    requires Reported(d, told) && d.tags == if tc.Some? then [DOCTEST, TEST_SUITE] else [DOCTEST]
    ensures Reported(RunClosed(d, opt, tc, stats), told + Told(opt, |d.tags|, tc, TestRunEnd(stats)))
  {
    hide Reported, Attributed, AsRead;
    var root := if tc.Some? then Closed(d) else d;
    if tc.Some? {
      ReportedClosed(d, told);
    }
    TotalsReported(root, told, stats);
    var asserts := Attributed(Attributed(Opened(root, OVERALL_RESULTS_ASSERTS), SUCCESSES, stats.successes),
                              FAILURES, stats.failures);
    var first := Placed(1, Asserts(AsRead(stats.successes), AsRead(stats.failures), "", ""));
    CasesReported(Closed(asserts), told + [first], opt, stats);
    var cases := Attributed(Attributed(Opened(Closed(asserts), OVERALL_RESULTS_TEST_CASES),
                                       SUCCESSES, stats.caseSuccesses),
                            FAILURES, stats.caseFailures);
    var skipped := if opt.noSkippedSummary then cases else Attributed(cases, SKIPPED, stats.skipped);
    var second := Placed(1, Cases(AsRead(stats.caseSuccesses), AsRead(stats.caseFailures),
                                  if opt.noSkippedSummary then "" else AsRead(stats.skipped)));
    assert told + [first] + [second] == told + [first, second];
    ReportedClosed(Closed(skipped), told + [first, second]);
  }

  // ----- the start of a run -----

  lemma RootReported(d: Doc, told: seq<Placed>, opt: Options)
    requires Reported(d, told) && d.tags == []
    ensures Reported(MaybeAttributed(Attributed(Opened(d, DOCTEST), BINARY, opt.binaryName), VERSION, opt.version),
                     told + [Placed(0, Root(AsRead(opt.binaryName), MaybeRead(opt.version)))])
  {
    hide Has, Followed, Reported, Attributed, MaybeAttributed, RawText, PutAll, Understood, AsRead, MaybeRead,
      HoldsTexts;
    OnlyTwo(d.tags);
    var es := ReportedFollows(d, told);
    var e := Element(0, "doctest", map[], []);
    var pairs := [("binary", RawText(opt.binaryName)), ("version", MaybeRaw(opt.version))];
    HasOpened(d, es, DOCTEST, pairs);
    NextValue(Opened(d, DOCTEST), es, e, pairs, 0, BINARY, opt.binaryName);
    var d1 := Attributed(Opened(d, DOCTEST), BINARY, opt.binaryName);
    NextMaybe(d1, es, e, pairs, 1, VERSION, opt.version);
    OneMore(MaybeAttributed(d1, VERSION, opt.version), es, told, e, pairs);
    RootSays(opt, pairs);
  }

  lemma RootSays(opt: Options, pairs: Pairs)
    requires pairs == [("binary", RawText(opt.binaryName)), ("version", MaybeRaw(opt.version))]
    ensures var r := PutAll(Element(0, "doctest", map[], []), pairs);
      r.depth == 0 && Understood(r) == Root(AsRead(opt.binaryName), MaybeRead(opt.version))
  {
    hide Value, Flag, Recalls, Decode, Understood, RawText, PutAll;
    var e := Element(0, "doctest", map[], []);
    Recalled(e, pairs, [6_098, 7_118]);
    RawWords();
    var r := PutAll(e, pairs);
    Dispatch(r);
    Says(r, pairs, 0, "binary");
    Says(r, pairs, 1, "version");
  }

  function SettingsPairs(opt: Options): Pairs {
    [("order_by", RawText(opt.orderBy)), ("rand_seed", RawText(opt.randSeed)), ("first", RawText(opt.first)),
     ("last", RawText(opt.last)), ("abort_after", RawText(opt.abortAfter)),
     ("subcase_filter_levels", RawText(opt.subcaseFilterLevels)), ("case_sensitive", RawFlag(opt.caseSensitive)),
     ("no_throw", RawFlag(opt.noThrow)), ("no_skip", RawFlag(opt.noSkip))]
  }

  lemma SettingsHeard(d: Doc, es: seq<Element>, opt: Options)
    requires Followed(d, es) && d.tags == [DOCTEST]
    ensures Has(OptionsListed(Opened(d, OPTIONS), opt), es, Element(1, "Options", map[], []), SettingsPairs(opt)[..9])
  {
    hide Has, Followed, Attributed, Flagged, RawText, RawFlag, HoldsTexts;
    OnlyTwo(d.tags);
    var e, pairs := Element(1, "Options", map[], []), SettingsPairs(opt);
    HasOpened(d, es, OPTIONS, pairs);
    var d0 := Opened(d, OPTIONS);
    NextValue(d0, es, e, pairs, 0, ORDER_BY, opt.orderBy);
    var d1 := Attributed(d0, ORDER_BY, opt.orderBy);
    NextValue(d1, es, e, pairs, 1, RAND_SEED, opt.randSeed);
    var d2 := Attributed(d1, RAND_SEED, opt.randSeed);
    NextValue(d2, es, e, pairs, 2, FIRST, opt.first);
    var d3 := Attributed(d2, FIRST, opt.first);
    NextValue(d3, es, e, pairs, 3, LAST, opt.last);
    var d4 := Attributed(d3, LAST, opt.last);
    NextValue(d4, es, e, pairs, 4, ABORT_AFTER, opt.abortAfter);
    var d5 := Attributed(d4, ABORT_AFTER, opt.abortAfter);
    NextValue(d5, es, e, pairs, 5, SUBCASE_FILTER_LEVELS, opt.subcaseFilterLevels);
    var d6 := Attributed(d5, SUBCASE_FILTER_LEVELS, opt.subcaseFilterLevels);
    NextFlag(d6, es, e, pairs, 6, CASE_SENSITIVE, opt.caseSensitive);
    var d7 := Flagged(d6, CASE_SENSITIVE, opt.caseSensitive);
    NextFlag(d7, es, e, pairs, 7, NO_THROW, opt.noThrow);
    var d8 := Flagged(d7, NO_THROW, opt.noThrow);
    NextFlag(d8, es, e, pairs, 8, NO_SKIP, opt.noSkip);
  }

  lemma SettingsSay(opt: Options)
    ensures var r := PutAll(Element(1, "Options", map[], []), SettingsPairs(opt));
      r.depth == 1 && Understood(r) == SettingsTold(opt)
  {
    hide Value, Flag, Recalls, Decode, Understood, AsSettings, PutAll, SettingsPairs, AsRead;
    var r := PutAll(Element(1, "Options", map[], []), SettingsPairs(opt));
    SettingsRecalled(opt);
    Dispatch(r);
    SettingsTextsSay(r, opt);
    SettingsFlagsSay(r, opt);
    SettingsUnderstood(r, AsRead(opt.orderBy), AsRead(opt.randSeed), AsRead(opt.first), AsRead(opt.last),
                       AsRead(opt.abortAfter), AsRead(opt.subcaseFilterLevels),
                       opt.caseSensitive, opt.noThrow, opt.noSkip);
  }

  lemma SettingsRecalled(opt: Options)
    ensures var e, pairs := Element(1, "Options", map[], []), SettingsPairs(opt);
      var r := PutAll(e, pairs);
      Recalls(r, pairs) && r.name == e.name && r.depth == 1
  {
    Recalled(Element(1, "Options", map[], []), SettingsPairs(opt),
             [8_111, 9_114, 5_102, 4_108, 11_097, 21_115, 14_099, 8_110, 7_110]);
  }

  lemma SettingsTextsSay(r: Element, opt: Options)
    requires Recalls(r, SettingsPairs(opt))
    ensures Value(r, "order_by") == AsRead(opt.orderBy) && Value(r, "rand_seed") == AsRead(opt.randSeed)
    ensures Value(r, "first") == AsRead(opt.first) && Value(r, "last") == AsRead(opt.last)
    ensures Value(r, "abort_after") == AsRead(opt.abortAfter)
    ensures Value(r, "subcase_filter_levels") == AsRead(opt.subcaseFilterLevels)
  {
    hide Value, Flag, Recalls, Decode, RawText, RawFlag;
    var pairs := SettingsPairs(opt);
    Says(r, pairs, 0, "order_by");
    Says(r, pairs, 1, "rand_seed");
    Says(r, pairs, 2, "first");
    Says(r, pairs, 3, "last");
    Says(r, pairs, 4, "abort_after");
    Says(r, pairs, 5, "subcase_filter_levels");
  }

  lemma SettingsFlagsSay(r: Element, opt: Options)
    requires Recalls(r, SettingsPairs(opt))
    ensures Flag(r, "case_sensitive") == opt.caseSensitive && Flag(r, "no_throw") == opt.noThrow
    ensures Flag(r, "no_skip") == opt.noSkip
  {
    hide Value, Flag, Recalls, Decode, RawText;
    var pairs := SettingsPairs(opt);
    RawWords();
    Says(r, pairs, 6, "case_sensitive");
    Says(r, pairs, 7, "no_throw");
    Says(r, pairs, 8, "no_skip");
  }

  lemma SettingsUnderstood(e: Element, orderBy: string, randSeed: string, first: string, last: string,
                           abortAfter: string, filterLevels: string, caseSensitive: bool, noThrow: bool, noSkip: bool)
    requires Value(e, "order_by") == orderBy && Value(e, "rand_seed") == randSeed && Value(e, "first") == first
    requires Value(e, "last") == last && Value(e, "abort_after") == abortAfter
    requires Value(e, "subcase_filter_levels") == filterLevels
    requires Flag(e, "case_sensitive") == caseSensitive
    requires Flag(e, "no_throw") == noThrow && Flag(e, "no_skip") == noSkip
    ensures AsSettings(e) ==
      Settings(orderBy, randSeed, first, last, abortAfter, filterLevels, caseSensitive, noThrow, noSkip)
  {
    hide Value, Flag;
  }

  lemma StartReported(d: Doc, told: seq<Placed>, opt: Options)
    requires Reported(d, told) && d.tags == []
    ensures Reported(RunOpened(d, opt), told + Told(opt, 0, None, TestRunStart))
  {
    hide Has, Followed, Reported, Attributed, MaybeAttributed, OptionsListed, PutAll, Understood, AsRead, MaybeRead,
      SettingsPairs;
    var root := MaybeAttributed(Attributed(Opened(d, DOCTEST), BINARY, opt.binaryName), VERSION, opt.version);
    var first := Placed(0, Root(AsRead(opt.binaryName), MaybeRead(opt.version)));
    RootReported(d, told, opt);
    var es := ReportedFollows(root, told + [first]);
    SettingsHeard(root, es, opt);
    NinePairs(opt);
    var listed := OptionsListed(Opened(root, OPTIONS), opt);
    OneMore(listed, es, told + [first], Element(1, "Options", map[], []), SettingsPairs(opt));
    SettingsSay(opt);
    var second := Placed(1, SettingsTold(opt));
    assert told + [first] + [second] == told + [first, second];
    ReportedClosed(listed, told + [first, second]);
  }

  lemma NinePairs(opt: Options)
    ensures |SettingsPairs(opt)| == 9
  {
  }

  // ----- every callback, and every sequence -----

  lemma TagsAround(phase: Phase)
    ensures |TagsOf(phase)| == Around(phase) && !HoldsTexts(TagsOf(phase))
  {
    OnlyTwo(TagsOf(phase));
  }

  /** From the marks alone the listener understands just what the callback told, in its place. */
  lemma ShownTold(opt: Options, phase: Phase, v: View, cb: Callback, told: seq<Placed>)
    requires Fits(phase, v) && XmlReporters.Next(opt, phase, cb).Some? && Reported(v.doc, told)
    ensures Reported(Shown(opt, phase, v, cb).doc, told + Told(opt, Around(phase), v.tc, cb))
    ensures Shown(opt, phase, v, cb).tc == LatestCase(opt, v.tc, cb)
  {
    hide Reported, RunOpened, CaseOpened, CaseClosed, CaseSkipped, ExceptionLogged, SubcaseOpened, AssertLogged,
      MessageLogged, RunClosed, CaseTold, SubCaseTags, AsRead, AsHeard, HoldsTexts, SettingsTold, MaybeRead, MaybeHeard,
      AllHeard;
    var d := v.doc;
    TagsAround(phase);
    assert told + [] == told;
    match cb
    case TestRunStart => StartReported(d, told, opt);
    case TestCaseStart(data) => CaseReported(d, told, v.tc, data);
    case TestCaseReenter =>
    case TestCaseEnd(stats) => CaseSummaryReported(d, told, opt, v.tc.value, stats);
    case TestCaseSkipped(data) => SkippedReported(d, told, v.tc, data);
    case TestCaseException(text, crash) => ExceptionReported(d, told, text, crash);
    case SubcaseStart(name, file, line) => SubcaseReported(d, told, name, file, line);
    case SubcaseEnd => ReportedClosed(d, told);
    case LogAssert(a, contexts) => AssertReported(d, told, opt, a, contexts);
    case LogMessage(m, contexts) => MessageReported(d, told, m, contexts);
    case TestRunEnd(stats) => EndReported(d, told, opt, v.tc, stats);
  }

  lemma AssertReported(d: Doc, told: seq<Placed>, opt: Options, a: AssertData, contexts: seq<string>)
    requires Reported(d, told) && !HoldsTexts(d.tags)
    ensures Reported(AssertLogged(d, opt, a, contexts),
                     told + Told(opt, |d.tags|, None, LogAssert(a, contexts)))
  {
    hide Reported, Understood, Filled, AsRead, AsHeard, MaybeHeard, AllHeard, HoldsTexts;
    if a.failed || opt.success {
      AssertHeard(d, told, opt, a, contexts);
      AssertSays(|d.tags|, a, contexts);
    } else {
      assert told + [] == told;
    }
  }

  /** The same for every legal sequence of callbacks. */
  lemma {:induction false} AllTold(opt: Options, phase: Phase, v: View, cbs: seq<Callback>, told: seq<Placed>)
    requires Fits(phase, v) && After(opt, phase, cbs).Some? && Reported(v.doc, told)
    ensures Reported(ShownAll(opt, phase, v, cbs).doc, told + ToldAll(opt, phase, v.tc, cbs))
    decreases |cbs|
  {
    hide Fits, Reported, Shown, Told;
    if cbs == [] {
      assert told + [] == told;
    } else {
      ShownFits(opt, phase, v, cbs[0]);
      ShownTold(opt, phase, v, cbs[0], told);
      var next := XmlReporters.Next(opt, phase, cbs[0]).value;
      var first := Told(opt, Around(phase), v.tc, cbs[0]);
      AllTold(opt, next, Shown(opt, phase, v, cbs[0]), cbs[1..], told + first);
      Associates(told, first, ToldAll(opt, next, LatestCase(opt, v.tc, cbs[0]), cbs[1..]));
    }
  }

  /** A finished run leaves a document that a reader gets through, with every element closed, and from
    which a listener learns, in order, all that the callbacks told and nothing else. */
  method ReportAll(opt: Options, cbs: seq<Callback>) returns (reporter: XmlReporter)
    requires After(opt, NotStarted, cbs) == Some(Finished)
    ensures reporter.xml.Valid() && reporter.xml.mTags == [] && reporter.xml.mIndent == ""
    ensures reporter.xml.Reading().Content? && reporter.xml.Reading().d.tags == []
    ensures Reports(reporter.xml.Reading().d) == ToldAll(opt, NotStarted, None, cbs)
  {
    hide Reports, ToldAll, Shown;
    reporter := new XmlReporter(opt);
    reporter.DeliverAll(cbs, NotStarted);
    NothingTold();
    AllTold(opt, NotStarted, View(None, Doc([], [])), cbs, []);
    assert [] + ToldAll(opt, NotStarted, None, cbs) == ToldAll(opt, NotStarted, None, cbs);
    ReportedAll(reporter.xml.Document(), ToldAll(opt, NotStarted, None, cbs));
  }

  lemma NothingTold()
    ensures Reported(Doc([], []), [])
  {
  }

  lemma ReportedAll(d: Doc, told: seq<Placed>)
    requires Reported(d, told)
    ensures Reports(d) == told
  {
  }
}
