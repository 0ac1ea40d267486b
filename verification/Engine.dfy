/** doctest's engine: it walks through test bodies, keeps the stack of subcases, and sends the
  callbacks from which the reporter writes. */
module Engine {
  import opened Common
  import opened Subcases
  import opened XmlReporters
  import XmlListeners
  import XmlReports
  import XmlWriters

  /** A test body with what it logs between its subcases. */
  datatype Program = End | Note(cb: Callback, rest: Program) | Section(sig: Signature, inner: Program, rest: Program)

  predicate NotesOnly(p: Program) {
    match p
    case End => true
    case Note(cb, rest) => (cb.LogAssert? || cb.LogMessage?) && NotesOnly(rest)
    case Section(_, inner, rest) => NotesOnly(inner) && NotesOnly(rest)
  }

  /** What the subcase protocol sees of it. */
  function Skeleton(p: Program): Body {
    match p
    case End => Done
    case Note(_, rest) => Skeleton(rest)
    case Section(sig, inner, rest) => Block(sig, Skeleton(inner), Skeleton(rest))
  }

  function LineText(line: int): string {
    if line < 0 then "-" + Decimal(-line) else Decimal(line)
  }

  function Announced(sig: Signature): Callback {
    SubcaseStart(sig.name, sig.file, LineText(sig.line))
  }

  /** A callback, and the stack of subcases at the moment it is sent. */
  datatype Sending = Sending(cb: Callback, stack: seq<Signature>)

  function Callbacks(s: seq<Sending>): (cbs: seq<Callback>)
    ensures |cbs| == |s|
  {
    seq(|s|, n requires 0 <= n < |s| => s[n].cb)
  }

  /** The stack after some sendings. */
  function StackAfter(before: seq<Signature>, s: seq<Sending>): seq<Signature> {
    if s == [] then before else s[|s| - 1].stack
  }

  /** What one execution of a body sends when the subcase protocol starts it in state `st`. */
  ghost function Sends(f: Filters, p: Program, i: nat, st: State): seq<Sending> {
    match p
    case End => []
    case Note(cb, rest) => [Sending(cb, st.stack)] + Sends(f, rest, i, st)
    case Section(sig, inner, rest) =>
      var (s1, entered) := Enter(f, st, sig, i);
      if !entered then Sends(f, rest, i + 1, s1)
      else
        var s2 := Leave(Walk(f, Skeleton(inner), 0, s1));
        [Sending(Announced(sig), s1.stack)]
        + (Sends(f, inner, 0, s1) + ([Sending(SubcaseEnd, s2.stack)] + Sends(f, rest, i + 1, s2)))
  }

  /** The definitions, opened once. */
  lemma OpenProgram(f: Filters, p: Program, i: nat, st: State)
    ensures match p
      case End => Sends(f, p, i, st) == [] && Walk(f, Skeleton(p), i, st) == st
      case Note(cb, rest) =>
        && Sends(f, p, i, st) == [Sending(cb, st.stack)] + Sends(f, rest, i, st)
        && Walk(f, Skeleton(p), i, st) == Walk(f, Skeleton(rest), i, st)
      case Section(sig, inner, rest) =>
        var (s1, entered) := Enter(f, st, sig, i);
        if !entered then
          && s1.stack == st.stack
          && Sends(f, p, i, st) == Sends(f, rest, i + 1, s1)
          && Walk(f, Skeleton(p), i, st) == Walk(f, Skeleton(rest), i + 1, s1)
        else
          var s2 := Walk(f, Skeleton(inner), 0, s1);
          && s1.stack == st.stack + [sig] == s2.stack && s2.trail == st.trail + [i]
          && Leave(s2).stack == st.stack
          && Sends(f, p, i, st) ==
            [Sending(Announced(sig), s1.stack)] + (Sends(f, inner, 0, s1) +
              ([Sending(SubcaseEnd, st.stack)] + Sends(f, rest, i + 1, Leave(s2))))
          && Walk(f, Skeleton(p), i, st) == Walk(f, Skeleton(rest), i + 1, Leave(s2))
  {
  }

  // ----- the open elements are the entries of the stack -----

  /** After every single callback the depth the reporter has reached is the size of the stack. */
  ghost predicate InStep(opt: Options, suite: string, before: seq<Signature>, s: seq<Sending>) {
    forall n :: 0 <= n <= |s| ==>
      After(opt, InCase(suite, |before|), Callbacks(s[..n])) == Some(InCase(suite, |StackAfter(before, s[..n])|))
  }

  lemma InStepNone(opt: Options, suite: string, before: seq<Signature>)
    ensures InStep(opt, suite, before, [])
  {
    AfterNone(opt, InCase(suite, |before|));
    assert Callbacks([]) == [];
  }

  lemma InStepOne(opt: Options, suite: string, before: seq<Signature>, s: Sending)
    requires Next(opt, InCase(suite, |before|), s.cb) == Some(InCase(suite, |s.stack|))
    ensures InStep(opt, suite, before, [s])
  {
    AfterOne(opt, InCase(suite, |before|), s.cb, []);
    AfterNone(opt, InCase(suite, |before|));
    assert Callbacks([s]) == [s.cb] + [] && Callbacks([]) == [];
    assert [s][..1] == [s] && [s][..0] == [];
  }

  lemma InStepJoin(opt: Options, suite: string, before: seq<Signature>, a: seq<Sending>, b: seq<Sending>)
    requires InStep(opt, suite, before, a) && InStep(opt, suite, StackAfter(before, a), b)
    ensures InStep(opt, suite, before, a + b)
    ensures StackAfter(before, a + b) == StackAfter(StackAfter(before, a), b)
  {
    var s := a + b;
    forall n | 0 <= n <= |s|
      ensures After(opt, InCase(suite, |before|), Callbacks(s[..n])) ==
        Some(InCase(suite, |StackAfter(before, s[..n])|))
    {
      if n <= |a| {
        assert s[..n] == a[..n];
      } else {
        var b' := b[..n - |a|];
        assert s[..n] == a + b' && a[..|a|] == a;
        assert Callbacks(a + b') == Callbacks(a) + Callbacks(b');
        AfterAppend(opt, InCase(suite, |before|), Callbacks(a), Callbacks(b'));
      }
    }
  }

  /** After every callback of every execution of a body there is one open subcase element for each
    entry of the stack, and at the end the stack is as before. */
  lemma {:induction false} SendsInStep(opt: Options, suite: string, f: Filters, p: Program, i: nat, st: State)
    requires NotesOnly(p)
    ensures InStep(opt, suite, st.stack, Sends(f, p, i, st))
    ensures StackAfter(st.stack, Sends(f, p, i, st)) == st.stack
  {
    hide InStep, Walk, Sends, Enter, Leave;
    OpenProgram(f, p, i, st);
    match p
    case End =>
      InStepNone(opt, suite, st.stack);
    case Note(cb, rest) =>
      var s := Sending(cb, st.stack);
      InStepOne(opt, suite, st.stack, s);
      SendsInStep(opt, suite, f, rest, i, st);
      InStepJoin(opt, suite, st.stack, [s], Sends(f, rest, i, st));
    case Section(sig, inner, rest) =>
      var (s1, entered) := Enter(f, st, sig, i);
      if entered {
        var s2 := Leave(Walk(f, Skeleton(inner), 0, s1));
        var open, close := Sending(Announced(sig), s1.stack), Sending(SubcaseEnd, s2.stack);
        var within, later := Sends(f, inner, 0, s1), Sends(f, rest, i + 1, s2);
        SendsInStep(opt, suite, f, inner, 0, s1);
        SendsInStep(opt, suite, f, rest, i + 1, s2);
        InStepOne(opt, suite, st.stack, open);
        InStepOne(opt, suite, s1.stack, close);
        InStepJoin(opt, suite, s1.stack, [close], later);
        InStepJoin(opt, suite, s1.stack, within, [close] + later);
        InStepJoin(opt, suite, st.stack, [open], within + ([close] + later));
      } else {
        SendsInStep(opt, suite, f, rest, i + 1, s1);
      }
  }

  // ----- all runs of a test case -----

  /** What a test case sends between its start and its end, from the run that finds `passed` on;
    that run comes `again` unless it is the first. */
  ghost function CaseSends(f: Filters, p: Program, passed: set<seq<Signature>>, again: bool): seq<Sending>
    requires passed <= Paths(Skeleton(p), [])
    decreases |Paths(Skeleton(p), []) - passed|
  {
    RunProgress(f, Skeleton(p), passed);
    var r := Walk(f, Skeleton(p), 0, FreshRun(passed));
    (if again then [Sending(TestCaseReenter, [])] else [])
    + (Sends(f, p, 0, FreshRun(passed)) + if r.reenter then CaseSends(f, p, r.passed, true) else [])
  }

  lemma {:induction false} CaseSendsInStep(opt: Options, suite: string, f: Filters, p: Program,
                                           passed: set<seq<Signature>>, again: bool)
    requires passed <= Paths(Skeleton(p), []) && NotesOnly(p)
    ensures InStep(opt, suite, [], CaseSends(f, p, passed, again))
    ensures StackAfter([], CaseSends(f, p, passed, again)) == []
    decreases |Paths(Skeleton(p), []) - passed|
  {
    hide InStep, Walk, Sends, Paths, NotesOnly;
    RunProgress(f, Skeleton(p), passed);
    var r := Walk(f, Skeleton(p), 0, FreshRun(passed));
    var first := if again then [Sending(TestCaseReenter, [])] else [];
    var run := Sends(f, p, 0, FreshRun(passed));
    var later := if r.reenter then CaseSends(f, p, r.passed, true) else [];
    InStepNone(opt, suite, []);
    InStepOne(opt, suite, [], Sending(TestCaseReenter, []));
    SendsInStep(opt, suite, f, p, 0, FreshRun(passed));
    if r.reenter {
      CaseSendsInStep(opt, suite, f, p, r.passed, true);
    }
    InStepJoin(opt, suite, [], run, later);
    InStepJoin(opt, suite, [], first, run + later);
  }

  // ----- what is told about a run: its notes, and the subcases it enters -----

  /** The callbacks that a test body logs itself. */
  function Logs(s: seq<Sending>): seq<Callback> {
    if s == [] then []
    else (if s[0].cb.LogAssert? || s[0].cb.LogMessage? then [s[0].cb] else []) + Logs(s[1..])
  }

  lemma {:induction false} LogsAppend(a: seq<Sending>, b: seq<Sending>)
    ensures Logs(a + b) == Logs(a) + Logs(b)
  {
    if a == [] {
      assert a + b == b;
    } else {
      LogsAppend(a[1..], b);
      assert (a + b)[1..] == a[1..] + b;
      Associates(if a[0].cb.LogAssert? || a[0].cb.LogMessage? then [a[0].cb] else [], Logs(a[1..]), Logs(b));
    }
  }

  lemma LogsOne(s: Sending)
    ensures Logs([s]) == if s.cb.LogAssert? || s.cb.LogMessage? then [s.cb] else []
  {
    assert [s][1..] == [];
  }

  /** The notes of a program on the way to position `t`, those behind a section it enters included:
    all that lie in no section beside that way. The first section is the i-th of its level. */
  function NotesAlong(p: Program, i: nat, depth: nat, t: seq<nat>): seq<Callback> {
    match p
    case End => []
    case Note(cb, rest) => [cb] + NotesAlong(rest, i, depth, t)
    case Section(_, inner, rest) =>
      (if depth < |t| && t[depth] == i then NotesAlong(inner, 0, depth + 1, t) else [])
      + NotesAlong(rest, i + 1, depth, t)
  }

  /** When nothing more can be entered on a level, its own notes are sent and nothing else. */
  lemma {:induction false} LevelLogs(f: Filters, p: Program, i: nat, st: State, depth: nat, t: seq<nat>)
    requires NotesOnly(p) && |st.stack| < st.maxLevel && (depth < |t| ==> t[depth] < i)
    ensures Logs(Sends(f, p, i, st)) == NotesAlong(p, i, depth, t)
  {
    match p
    case End =>
    case Note(cb, rest) =>
      LevelLogs(f, rest, i, st, depth, t);
      LogsAppend([Sending(cb, st.stack)], Sends(f, rest, i, st));
      LogsOne(Sending(cb, st.stack));
    case Section(sig, _, rest) =>
      LevelLogs(f, rest, i + 1, Enter(f, st, sig, i).0, depth, t);
  }

  /** The logs of an execution are, in order, the notes on the way to the deepest position it enters. */
  lemma {:induction false} LogsAlong(f: Filters, p: Program, i: nat, st: State) returns (t: seq<nat>)
    requires Consistent(st) && NotesOnly(p)
    ensures st.trail <= t && (|st.trail| < |t| ==> t[|st.trail|] >= i)
    ensures Walk(f, Skeleton(p), i, st).entered == st.entered + Chain(t, |st.trail|)
    ensures Logs(Sends(f, p, i, st)) == NotesAlong(p, i, |st.trail|, t)
    decreases p, 1
  {
    hide Walk, Sends, Chain, Enter, Leave, Logs, NotesAlong;
    OpenProgram(f, p, i, st);
    if |st.stack| < st.maxLevel {
      t := st.trail;
      SkipsRest(f, Skeleton(p), i, st);
      LevelLogs(f, p, i, st, |t|, t);
      NoChain(st.entered, t);
    } else {
      match p
      case End =>
        t := st.trail;
        NoChain(st.entered, t);
        NoLogs();
      case Note(cb, rest) =>
        t := LogsAlong(f, rest, i, st);
        LogsAppend([Sending(cb, st.stack)], Sends(f, rest, i, st));
        LogsOne(Sending(cb, st.stack));
      case Section(sig, inner, rest) =>
        if Enter(f, st, sig, i).1 {
          t := SectionLogs(f, p, i, st);
        } else {
          NotEntered(f, st, sig, i);
          t := LogsAlong(f, rest, i + 1, Enter(f, st, sig, i).0);
        }
    }
    OpenNotes(p, i, |st.trail|, t);
  }

  lemma SectionLogs(f: Filters, p: Program, i: nat, st: State) returns (t: seq<nat>)
    requires Consistent(st) && NotesOnly(p) && p.Section? && Enter(f, st, p.sig, i).1
    ensures st.trail <= t && |st.trail| < |t| && t[|st.trail|] == i
    ensures Walk(f, Skeleton(p), i, st).entered == st.entered + Chain(t, |st.trail|)
    ensures Logs(Sends(f, p, i, st)) == NotesAlong(p, i, |st.trail|, t)
    decreases p, 0
  {
    hide Walk, Sends, Chain, Enter, Leave, Logs, NotesAlong;
    OpenProgram(f, p, i, st);
    EnterNests(f, st, p.sig, i);
    EntersInOrder(f, st, p.sig, i);
    var s1 := Enter(f, st, p.sig, i).0;
    var w := Walk(f, Skeleton(p.inner), 0, s1);
    var s2 := Leave(w);
    t := LogsAlong(f, p.inner, 0, s1);
    assert t[|st.trail|] == s1.trail[|st.trail|] == i;
    WalkKeeps(f, Skeleton(p.inner), 0, s1);
    LeaveReturns(w, st, p.sig, i);
    SkipsRest(f, Skeleton(p.rest), i + 1, s2);
    LevelLogs(f, p.rest, i + 1, s2, |st.trail|, t);
    ChainStep(t, st.trail, i);
    Associates(st.entered, [s1.trail], Chain(t, |s1.trail|));
    var open, close := Sending(Announced(p.sig), s1.stack), Sending(SubcaseEnd, st.stack);
    var within, later := Sends(f, p.inner, 0, s1), Sends(f, p.rest, i + 1, s2);
    LogsAppend([open], within + ([close] + later));
    LogsAppend(within, [close] + later);
    LogsAppend([close], later);
    LogsOne(open);
    LogsOne(close);
    OpenNotes(p, i, |st.trail|, t);
  }

  lemma OpenNotes(p: Program, i: nat, depth: nat, t: seq<nat>)
    ensures NotesAlong(p, i, depth, t) ==
      match p
      case End => []
      case Note(cb, rest) => [cb] + NotesAlong(rest, i, depth, t)
      case Section(_, inner, rest) =>
        (if depth < |t| && t[depth] == i then NotesAlong(inner, 0, depth + 1, t) else [])
        + NotesAlong(rest, i + 1, depth, t)
  {
  }

  lemma NoLogs()
    ensures Logs([]) == []
  {
  }

  lemma NoChain(entered: seq<seq<nat>>, t: seq<nat>)
    ensures entered + Chain(t, |t|) == entered
  {
  }

  lemma EntersInOrder(f: Filters, st: State, sig: Signature, i: nat)
    requires Consistent(st) && Enter(f, st, sig, i).1
    ensures Consistent(Enter(f, st, sig, i).0)
  {
  }

  lemma NotEntered(f: Filters, st: State, sig: Signature, i: nat)
    requires Consistent(st) && |st.stack| == st.maxLevel && !Enter(f, st, sig, i).1
    ensures Enter(f, st, sig, i).0 == st
  {
  }

  function Deepest(run: seq<seq<nat>>): seq<nat> {
    if run == [] then [] else run[|run| - 1]
  }

  /** The logs of a run are, in order, exactly the notes of the program that lie in no section outside
    the chain it enters. */
  lemma RunLogs(f: Filters, p: Program, passed: set<seq<Signature>>)
    requires NotesOnly(p)
    ensures Logs(Sends(f, p, 0, FreshRun(passed))) ==
      NotesAlong(p, 0, 0, Deepest(Walk(f, Skeleton(p), 0, FreshRun(passed)).entered))
  {
    hide Walk, Sends, Logs, NotesAlong;
    var t := LogsAlong(f, p, 0, FreshRun(passed));
    assert [] + Chain(t, 0) == Chain(t, 0);
    assert t != [] ==> Chain(t, 0)[|t| - 1] == t[..|t|] == t;
  }

  /** What the given runs of a test case log, run after run. */
  function LoggedIn(p: Program, runs: seq<seq<seq<nat>>>): seq<Callback> {
    if runs == [] then []
    else LoggedIn(p, runs[..|runs| - 1]) + NotesAlong(p, 0, 0, Deepest(runs[|runs| - 1]))
  }

  lemma LoggedInMore(p: Program, runs: seq<seq<seq<nat>>>, run: seq<seq<nat>>)
    ensures LoggedIn(p, runs + [run]) == LoggedIn(p, runs) + NotesAlong(p, 0, 0, Deepest(run))
  {
    assert (runs + [run])[..|runs|] == runs;
  }

  /** A subcase is announced when it is on top of the stack, under its own name and location. */
  predicate AnnouncesTop(s: seq<Sending>) {
    forall n :: 0 <= n < |s| && s[n].cb.SubcaseStart? ==>
      && s[n].stack != []
      && var sig := s[n].stack[|s[n].stack| - 1];
      s[n].cb.name == sig.name && s[n].cb.file == sig.file && (sig.line >= 0 ==> s[n].cb.line == Decimal(sig.line))
  }

  lemma {:induction false} SendsAnnounceTop(f: Filters, p: Program, i: nat, st: State)
    requires NotesOnly(p)
    ensures AnnouncesTop(Sends(f, p, i, st))
  {
    hide Walk, Sends, Enter, Leave;
    OpenProgram(f, p, i, st);
    match p
    case End =>
    case Note(_, rest) =>
      SendsAnnounceTop(f, rest, i, st);
    case Section(sig, inner, rest) =>
      var (s1, entered) := Enter(f, st, sig, i);
      if entered {
        SendsAnnounceTop(f, inner, 0, s1);
        SendsAnnounceTop(f, rest, i + 1, Leave(Walk(f, Skeleton(inner), 0, s1)));
      } else {
        SendsAnnounceTop(f, rest, i + 1, s1);
      }
  }

  // ----- a run that ends by itself -----

  /** What one execution of a body sends, as a script of logs and nested subcases. */
  ghost function ScriptOf(f: Filters, p: Program, i: nat, st: State): Script {
    match p
    case End => Stop
    case Note(cb, rest) => Log(cb, ScriptOf(f, rest, i, st))
    case Section(sig, inner, rest) =>
      var (s1, entered) := Enter(f, st, sig, i);
      if !entered then ScriptOf(f, rest, i + 1, s1)
      else
        var s2 := Leave(Walk(f, Skeleton(inner), 0, s1));
        Sub(sig.name, sig.file, LineText(sig.line), ScriptOf(f, inner, 0, s1), ScriptOf(f, rest, i + 1, s2))
  }

  ghost function CaseScripts(f: Filters, p: Program, passed: set<seq<Signature>>): seq<Script>
    requires passed <= Paths(Skeleton(p), [])
    decreases |Paths(Skeleton(p), []) - passed|
  {
    RunProgress(f, Skeleton(p), passed);
    var r := Walk(f, Skeleton(p), 0, FreshRun(passed));
    [ScriptOf(f, p, 0, FreshRun(passed))] + if r.reenter then CaseScripts(f, p, r.passed) else []
  }

  lemma CallbacksNone()
    ensures Callbacks([]) == []
  {
  }

  lemma CallbacksOne(s: Sending)
    ensures Callbacks([s]) == [s.cb]
  {
  }

  lemma CallbacksJoin(a: seq<Sending>, b: seq<Sending>)
    ensures Callbacks(a + b) == Callbacks(a) + Callbacks(b)
  {
  }

  lemma {:induction false} SendsItsScript(f: Filters, p: Program, i: nat, st: State)
    requires NotesOnly(p)
    ensures LogsOnly(ScriptOf(f, p, i, st))
    ensures Callbacks(Sends(f, p, i, st)) == Emit(ScriptOf(f, p, i, st))
  {
    hide Walk, Callbacks;
    match p
    case End =>
      CallbacksNone();
    case Note(cb, rest) =>
      SendsItsScript(f, rest, i, st);
      CallbacksOne(Sending(cb, st.stack));
      CallbacksJoin([Sending(cb, st.stack)], Sends(f, rest, i, st));
    case Section(sig, inner, rest) =>
      var (s1, entered) := Enter(f, st, sig, i);
      if entered {
        var s2 := Leave(Walk(f, Skeleton(inner), 0, s1));
        var open, close := [Sending(Announced(sig), s1.stack)], [Sending(SubcaseEnd, s2.stack)];
        var within, later := Sends(f, inner, 0, s1), Sends(f, rest, i + 1, s2);
        SendsItsScript(f, inner, 0, s1);
        SendsItsScript(f, rest, i + 1, s2);
        CallbacksOne(open[0]);
        CallbacksOne(close[0]);
        CallbacksJoin(close, later);
        CallbacksJoin(within, close + later);
        CallbacksJoin(open, within + (close + later));
      } else {
        SendsItsScript(f, rest, i + 1, s1);
      }
  }

  /** What a test case sends are the runs of its scripts, so that a run of the engine is one of those
    that are legal and close every element. */
  lemma {:induction false} CaseSendsItsScripts(f: Filters, p: Program, passed: set<seq<Signature>>, again: bool)
    requires passed <= Paths(Skeleton(p), []) && NotesOnly(p)
    ensures forall s :: s in CaseScripts(f, p, passed) ==> LogsOnly(s)
    ensures Callbacks(CaseSends(f, p, passed, again)) == EmitRuns(CaseScripts(f, p, passed), again)
    decreases |Paths(Skeleton(p), []) - passed|
  {
    hide Walk, Sends, Paths, NotesOnly, LogsOnly, Emit, ScriptOf, Callbacks;
    RunProgress(f, Skeleton(p), passed);
    var r := Walk(f, Skeleton(p), 0, FreshRun(passed));
    var first := if again then [Sending(TestCaseReenter, [])] else [];
    var run := Sends(f, p, 0, FreshRun(passed));
    var later := if r.reenter then CaseSends(f, p, r.passed, true) else [];
    SendsItsScript(f, p, 0, FreshRun(passed));
    if r.reenter {
      CaseSendsItsScripts(f, p, r.passed, true);
    }
    CallbacksNone();
    CallbacksOne(Sending(TestCaseReenter, []));
    CallbacksJoin(run, later);
    CallbacksJoin(first, run + later);
    assert CaseScripts(f, p, passed)[1..] == if r.reenter then CaseScripts(f, p, r.passed) else [];
  }

  /** A test case as the run of the engine: it is skipped, or its program is executed. */
  datatype Test = SkippedTest(data: TestCaseData) | ExecutedTest(data: TestCaseData, program: Program, stats: Stats)

  ghost function CaseOf(f: Filters, t: Test): Case {
    match t
    case SkippedTest(data) => Skipped(data)
    case ExecutedTest(data, program, stats) => Executed(data, CaseScripts(f, program, {}), stats)
  }

  predicate TestOk(t: Test) {
    t.ExecutedTest? ==> NotesOnly(t.program)
  }

  lemma TestIsCase(f: Filters, t: Test)
    requires TestOk(t)
    ensures CaseOk(CaseOf(f, t))
    ensures t.ExecutedTest? ==>
      EmitCase(CaseOf(f, t)) ==
        [TestCaseStart(t.data)] + (Callbacks(CaseSends(f, t.program, {}, false)) + [TestCaseEnd(t.stats)])
  {
    if t.ExecutedTest? {
      CaseSendsItsScripts(f, t.program, {}, false);
    }
  }

  ghost function CasesOf(f: Filters, tests: seq<Test>): (cases: seq<Case>)
    ensures |cases| == |tests|
  {
    seq(|tests|, i requires 0 <= i < |tests| => CaseOf(f, tests[i]))
  }

  lemma TestsAreCases(f: Filters, tests: seq<Test>)
    requires forall t :: t in tests ==> TestOk(t)
    ensures forall c :: c in CasesOf(f, tests) ==> CaseOk(c)
  {
    forall t | t in tests
      ensures CaseOk(CaseOf(f, t))
    {
      TestIsCase(f, t);
    }
  }

  // ----- crashes -----

  /** What `reportFatal` sends when it takes `size` subcases off the stack. */
  function Fatal(text: string, size: nat, stats: Stats): seq<Callback> {
    [TestCaseException(text, true)] + (Pops(size) + [TestCaseEnd(stats), TestRunEnd(stats)])
  }

  function Pops(size: nat): seq<Callback> {
    if size == 0 then [] else [SubcaseEnd] + Pops(size - 1)
  }

  lemma {:induction false} PopsUnwind(opt: Options, suite: string, depth: nat, size: nat)
    ensures After(opt, InCase(suite, depth), Pops(size)) ==
      if size <= depth then Some(InCase(suite, depth - size)) else None
    decreases size
  {
    if size > 0 {
      assert Pops(size)[1..] == Pops(size - 1);
      if depth > 0 {
        PopsUnwind(opt, suite, depth - 1, size - 1);
      }
    }
  }

  /** The crash path finishes the run if it pops as often as subcases are open, and only then. */
  lemma FatalFinishes(opt: Options, suite: string, depth: nat, text: string, size: nat, stats: Stats)
    ensures After(opt, InCase(suite, depth), Fatal(text, size, stats)) == Some(Finished) <==> size == depth
  {
    hide After;
    var end, ends := [TestRunEnd(stats)], [TestCaseEnd(stats), TestRunEnd(stats)];
    assert ends == [TestCaseEnd(stats)] + end && end == [TestRunEnd(stats)] + [];
    AfterOne(opt, InCase(suite, depth), TestCaseException(text, true), Pops(size) + ends);
    PopsUnwind(opt, suite, depth, size);
    AfterAppend(opt, InCase(suite, depth), Pops(size), ends);
    if size <= depth {
      AfterOne(opt, InCase(suite, depth - size), TestCaseEnd(stats), end);
    }
    AfterOne(opt, BetweenCases(Some(suite)), TestRunEnd(stats), []);
    AfterNone(opt, Finished);
  }

  /** A signal anywhere inside a test case: after any part of what any case sends, however deep in
    subcases, the crash path finishes the run, with every element closed, because it pops the stack
    the engine has at that moment. No other number of pops would do. */
  lemma CrashIsLegal(opt: Options, f: Filters, tests: seq<Test>, data: TestCaseData, p: Program, n: nat,
                     text: string, stats: Stats, size: nat)
    requires (forall t :: t in tests ==> TestOk(t)) && NotesOnly(p)
    requires n <= |CaseSends(f, p, {}, false)|
    ensures var part := CaseSends(f, p, {}, false)[..n];
      After(opt, NotStarted, [TestRunStart] + (EmitCases(CasesOf(f, tests)) +
        ([TestCaseStart(data)] + (Callbacks(part) + Fatal(text, size, stats))))) == Some(Finished)
      <==> size == |StackAfter([], part)|
  {
    hide After, CaseSends, CasesOf, StackAfter, Callbacks, Fatal, TestOk, NotesOnly, CaseOk, EmitCases;
    var cases := CasesOf(f, tests);
    TestsAreCases(f, tests);
    CasesAreLegal(opt, cases, None);
    var suite := After(opt, BetweenCases(None), EmitCases(cases)).value;
    var part := CaseSends(f, p, {}, false)[..n];
    CaseSendsInStep(opt, data.suite, f, p, {}, false);
    var inside := Callbacks(part) + Fatal(text, size, stats);
    var tail := [TestCaseStart(data)] + inside;
    AfterOne(opt, NotStarted, TestRunStart, EmitCases(cases) + tail);
    AfterAppend(opt, BetweenCases(None), EmitCases(cases), tail);
    AfterOne(opt, suite, TestCaseStart(data), inside);
    AfterAppend(opt, InCase(data.suite, 0), Callbacks(part), Fatal(text, size, stats));
    FatalFinishes(opt, data.suite, |StackAfter([], part)|, text, size, stats);
  }

  // ----- in place -----

  lemma SentInOrder(before: seq<Sending>, f: Filters, p: Program, i: nat, st: State)
    requires p.Section? && Enter(f, st, p.sig, i).1
    ensures var s1 := Enter(f, st, p.sig, i).0;
      var s2 := Leave(Walk(f, Skeleton(p.inner), 0, s1));
      before + [Sending(Announced(p.sig), s1.stack)] + Sends(f, p.inner, 0, s1) + [Sending(SubcaseEnd, s2.stack)]
        + Sends(f, p.rest, i + 1, s2)
      == before + Sends(f, p, i, st)
  {
  }

  /** What the callbacks of a test case add to the document that stood at `start`, where they have reached
    some depth. */
  ghost predicate Written(opt: Options, suite: string, start: View, cbs: seq<Callback>, depth: nat, v: View) {
    && Fits(InCase(suite, 0), start)
    && After(opt, InCase(suite, 0), cbs) == Some(InCase(suite, depth))
    && v == ShownAll(opt, InCase(suite, 0), start, cbs)
  }

  lemma NothingWritten(opt: Options, suite: string, start: View)
    requires Fits(InCase(suite, 0), start)
    ensures Written(opt, suite, start, [], 0, start)
  {
  }

  lemma WrittenFits(opt: Options, suite: string, start: View, cbs: seq<Callback>, depth: nat, v: View)
    requires Written(opt, suite, start, cbs, depth, v)
    ensures Fits(InCase(suite, depth), v)
  {
    hide Fits;
  }

  lemma WrittenMore(opt: Options, suite: string, start: View, cbs: seq<Callback>, depth: nat, v: View,
                    cb: Callback, depth': nat)
    requires Written(opt, suite, start, cbs, depth, v)
    requires Next(opt, InCase(suite, depth), cb) == Some(InCase(suite, depth'))
    ensures Fits(InCase(suite, depth), v)
    ensures Written(opt, suite, start, cbs + [cb], depth', Shown(opt, InCase(suite, depth), v, cb))
  {
    hide Fits, After, ShownAll, Shown;
    AfterAppend(opt, InCase(suite, 0), cbs, [cb]);
    AfterOne(opt, InCase(suite, depth), cb, []);
    AfterNone(opt, InCase(suite, depth'));
    assert [cb] + [] == [cb];
    ShownAppend(opt, InCase(suite, 0), start, cbs, [cb]);
    ShownOne(opt, InCase(suite, depth), v, cb, []);
    ShownNone(opt, InCase(suite, depth'), Shown(opt, InCase(suite, depth), v, cb));
  }

  lemma {:induction false} ShownAppend(opt: Options, phase: Phase, v: View, a: seq<Callback>, b: seq<Callback>)
    requires Fits(phase, v) && After(opt, phase, a + b).Some?
    ensures After(opt, phase, a).Some? && After(opt, After(opt, phase, a).value, b).Some?
    ensures ShownAll(opt, phase, v, a + b) == ShownAll(opt, After(opt, phase, a).value, ShownAll(opt, phase, v, a), b)
    decreases |a|
  {
    hide Fits, Shown;
    AfterAppend(opt, phase, a, b);
    if a == [] {
      assert a + b == b;
    } else {
      assert (a + b)[1..] == a[1..] + b && (a + b)[0] == a[0];
      ShownFits(opt, phase, v, a[0]);
      ShownAppend(opt, Next(opt, phase, a[0]).value, Shown(opt, phase, v, a[0]), a[1..], b);
    }
  }

  /** The engine while it runs test cases, with the reporter it sends its callbacks to. */
  class TestRunner {
    const context: ContextState
    const reporter: XmlReporter
    /** What was sent from inside the present test case, and the document at its start. */
    ghost var sent: seq<Sending>
    ghost var start: View

    constructor (context: ContextState, reporter: XmlReporter)
      ensures this.context == context && this.reporter == reporter
    {
      this.context, this.reporter, sent := context, reporter, [];
      start := View(None, XmlWriters.Doc([], []));
    }

    /** Between two callbacks inside a test case: the reporter has written all that was sent, and as many
      subcases are open as the context's stack has entries. */
    ghost predicate Aligned(suite: string)
      reads this, context, reporter, reporter.xml
    {
      && reporter.xml.Valid()
      && Written(reporter.opt, suite, start, Callbacks(sent), |context.subcasesStack|, reporter.Now())
    }

    /** Sends a callback; `depth` is the size the stack had after the previous one. */
    method Send(cb: Callback, ghost suite: string, ghost depth: nat)
      requires reporter.xml.Valid() && Written(reporter.opt, suite, start, Callbacks(sent), depth, reporter.Now())
      requires Next(reporter.opt, InCase(suite, depth), cb) == Some(InCase(suite, |context.subcasesStack|))
      modifies this`sent, reporter`tc, reporter.xml
      ensures Aligned(suite) && Fits(InCase(suite, |context.subcasesStack|), reporter.Now())
      ensures sent == old(sent) + [Sending(cb, context.subcasesStack)]
    {
      hide XmlWriters.XmlWriter.Valid, XmlWriters.XmlWriter.Document, Fits, Shown, Written, Callbacks;
      WrittenMore(reporter.opt, suite, start, Callbacks(sent), depth, reporter.Now(), cb, |context.subcasesStack|);
      reporter.Deliver(cb, InCase(suite, depth));
      CallbacksJoin(sent, [Sending(cb, context.subcasesStack)]);
      CallbacksOne(Sending(cb, context.subcasesStack));
      sent := sent + [Sending(cb, context.subcasesStack)];
      WrittenFits(reporter.opt, suite, start, Callbacks(sent), |context.subcasesStack|, reporter.Now());
    }

    /** One execution of a test body. */
    method RunProgram(p: Program, ghost i: nat, ghost suite: string)
      requires Aligned(suite) && NotesOnly(p) && context.WellNamed(Skeleton(p))
      modifies this`sent, context, reporter`tc, reporter.xml
      ensures Aligned(suite)
      ensures context.Now() == Walk(context.filters, Skeleton(p), i, old(context.Now()))
      ensures sent == old(sent) + Sends(context.filters, p, i, old(context.Now()))
      decreases p
    {
      hide Written, Sends, Walk, Enter, Leave, Callbacks, XmlWriters.XmlWriter.Valid, XmlWriters.XmlWriter.Document;
      ghost var f, st, before := context.filters, context.Now(), sent;
      OpenProgram(f, p, i, st);
      match p
      case End =>
        assert before + [] == sent;
      case Note(cb, rest) =>
        Send(cb, suite, |context.subcasesStack|);
        RunProgram(rest, i, suite);
        Associates(before, [Sending(cb, st.stack)], Sends(f, rest, i, st));
      case Section(sig, inner, rest) =>
        ghost var depth := |context.subcasesStack|;
        var entered := context.EnterSubcase(sig, i);
        if entered {
          Send(SubcaseStart(sig.name, sig.file, LineText(sig.line)), suite, depth);
          RunProgram(inner, 0, suite);
          context.LeaveSubcase();
          Send(SubcaseEnd, suite, depth + 1);
        }
        RunProgram(rest, i + 1, suite);
        if entered {
          SentInOrder(before, f, p, i, st);
        }
    }

    /** One run of a test case. */
    method RunOnce(p: Program, ghost suite: string)
      requires reporter.xml.Valid() && Written(reporter.opt, suite, start, Callbacks(sent), 0, reporter.Now())
      requires NotesOnly(p) && context.WellNamed(Skeleton(p))
      modifies this`sent, context, reporter`tc, reporter.xml
      ensures Aligned(suite) && context.subcasesStack == []
      ensures sent == old(sent) + Sends(context.filters, p, 0, FreshRun(old(context.subcasesPassed)))
      ensures context.Now() == Walk(context.filters, Skeleton(p), 0, FreshRun(old(context.subcasesPassed)))
    {
      hide Written, Sends, Walk, NotesOnly, Callbacks, XmlWriters.XmlWriter.Valid, XmlWriters.XmlWriter.Document;
      context.shouldReenter, context.subcasesCurrentMaxLevel, context.subcasesStack := false, 0, [];
      context.trail, context.entered := [], [];
      RunProgram(p, 0, suite);
      assert context.subcasesStack == context.Now().stack;
    }

    /** The re-entry loop around a test case. It always terminates, and every run is one nested chain.
      The runs are exactly one per leaf, in order, if and only if no two visible siblings have the same
      signature; else some leaf is in none of them. What the case logs are the notes on the way of each run.
      The reporter writes all that is sent, from the start of the case to its end. */
    method RunTestCase(data: TestCaseData, p: Program, stats: Stats, ghost before: Option<string>)
      returns (ghost runs: seq<seq<seq<nat>>>)
      requires reporter.xml.Valid() && Fits(BetweenCases(before), reporter.Now())
      requires NotesOnly(p) && context.WellNamed(Skeleton(p))
      modifies this, context, reporter`tc, reporter.xml
      ensures runs == ExpectedRuns(context.filters, Skeleton(p)) <==> Distinct(context.filters, Skeleton(p), 0, {})
      ensures Distinct(context.filters, Skeleton(p), 0, {}) || MissesALeaf(context.filters, Skeleton(p), runs)
      ensures forall run :: run in runs ==> IsChain(run) && OnlyFirsts(context.filters, Skeleton(p), run)
      ensures RunsDone(context.filters, Skeleton(p), context.subcasesPassed, runs, false)
      ensures sent == CaseSends(context.filters, p, {}, false) && Logs(sent) == LoggedIn(p, runs)
      ensures reporter.xml.Valid() && Fits(BetweenCases(Some(data.suite)), reporter.Now())
      ensures After(reporter.opt, InCase(data.suite, 0), Callbacks(sent)) == Some(InCase(data.suite, 0))
      ensures reporter.Now() == CaseShown(reporter.opt, before, old(reporter.Now()), data, Callbacks(sent), stats)
    {
      hide Fits, Shown, Sends, Walk, NotesOnly, Paths, XmlWriters.XmlWriter.Valid, XmlWriters.XmlWriter.Document,
        CaseSends, RunsDone, ExpectedRuns, MissesALeaf, Distinct, IsChain, OnlyFirsts, Skeleton, CStrings, Written,
        Logs, LoggedIn, Callbacks, CaseShown;
      ghost var f, whole := context.filters, CaseSends(context.filters, p, {}, false);
      ghost var v := reporter.Now();
      context.subcasesPassed := {};
      runs, sent := [], [];
      NoRunYet(f, Skeleton(p));
      StartOfCase(reporter.opt, before, v, data, p);
      reporter.Deliver(TestCaseStart(data), BetweenCases(before));
      start := reporter.Now();
      ghost var initial := start;
      assert [] + whole == whole;
      var runTest := true;
      while runTest
        invariant reporter.xml.Valid() && start == initial
        invariant Written(reporter.opt, data.suite, start, Callbacks(sent), 0, reporter.Now())
        invariant context.subcasesPassed <= Paths(Skeleton(p), [])
        invariant RunsDone(f, Skeleton(p), context.subcasesPassed, runs, runTest)
        invariant whole == if runTest then sent + CaseSends(f, p, context.subcasesPassed, false) else sent
        invariant Logs(sent) == LoggedIn(p, runs)
        decreases runTest, |Paths(Skeleton(p), []) - context.subcasesPassed|
      {
        NextRun(f, Skeleton(p), context.subcasesPassed, runs);
        OpenCase(f, p, context.subcasesPassed, sent);
        RunLogged(f, p, context.subcasesPassed, sent, runs);
        RunOnce(p, data.suite);
        runs := runs + [context.entered];
        if context.shouldReenter {
          Send(TestCaseReenter, data.suite, 0);
        } else {
          runTest := false;
        }
      }
      AllRunsDone(f, Skeleton(p), context.subcasesPassed, runs);
      EndOfCase(reporter.opt, before, v, data, Callbacks(sent), stats, reporter.Now());
      reporter.Deliver(TestCaseEnd(stats), InCase(data.suite, 0));
    }

    /** A whole run: what is on the reporter's document in the end is what the callbacks of all tests stand
      for, and a listener learns it all from there. */
    method RunTests(tests: seq<Test>, stats: Stats)
      requires reporter.xml.Valid() && reporter.Now() == NothingYet()
      requires forall t :: t in tests ==> TestOk(t) && (t.ExecutedTest? ==> context.WellNamed(Skeleton(t.program)))
      modifies this, context, reporter`tc, reporter.xml
      ensures reporter.xml.Valid()
      ensures RunWritten(reporter.opt, context.filters, tests, stats, reporter.Now())
    {
      hide Fits, Shown, CaseSends, Callbacks, CStrings, NotesOnly, EmitCases, CasesOf, Progress, RunWritten,
        XmlWriters.XmlWriter.Valid, XmlWriters.XmlWriter.Document, RunsDone, ExpectedRuns, MissesALeaf, Distinct,
        IsChain, OnlyFirsts, Logs, LoggedIn, CaseShown;
      ghost var opt, f := reporter.opt, context.filters;
      StartOfRun(opt, f);
      reporter.Deliver(TestRunStart, NotStarted);
      ghost var suite: Option<string> := None;
      for n := 0 to |tests|
        invariant reporter.xml.Valid() && Progress(opt, f, tests[..n], suite, reporter.Now())
      {
        assert tests[n] in tests && tests[..n + 1] == tests[..n] + [tests[n]];
        OneMoreTest(opt, f, tests[..n], suite, reporter.Now(), tests[n]);
        match tests[n]
        case SkippedTest(data) =>
          reporter.Deliver(TestCaseSkipped(data), BetweenCases(suite));
          suite := if opt.noSkippedSummary then suite else Some(data.suite);
        case ExecutedTest(data, program, caseStats) =>
          var _ := RunTestCase(data, program, caseStats, suite);
          suite := Some(data.suite);
      }
      assert tests[..|tests|] == tests;
      EndOfRun(opt, f, tests, suite, reporter.Now(), stats);
      reporter.Deliver(TestRunEnd(stats), BetweenCases(suite));
    }

    /** The crash path: after any callback inside a test case it empties the stack and leaves a finished
      document, with every element closed. */
    method ReportFatal(text: string, stats: Stats, ghost suite: string)
      requires reporter.xml.Valid() && Fits(InCase(suite, |context.subcasesStack|), reporter.Now())
      modifies context`subcasesStack, reporter`tc, reporter.xml
      ensures reporter.xml.Valid() && Fits(Finished, reporter.Now()) && context.subcasesStack == []
      ensures reporter.Now() ==
        CrashShown(reporter.opt, suite, |old(context.subcasesStack)|, old(reporter.Now()), text, stats)
    {
      hide Fits, Shown, ShownAll, XmlWriters.XmlWriter.Valid, XmlWriters.XmlWriter.Document;
      ghost var opt, v := reporter.opt, reporter.Now();
      OpenCrash(opt, suite, |context.subcasesStack|, v, text, stats);
      ghost var whole := CrashShown(opt, suite, |context.subcasesStack|, v, text, stats);
      reporter.Deliver(TestCaseException(text, true), InCase(suite, |context.subcasesStack|));
      while context.subcasesStack != []
        invariant reporter.xml.Valid() && Fits(InCase(suite, |context.subcasesStack|), reporter.Now())
        invariant whole == UnwindShown(opt, suite, |context.subcasesStack|, reporter.Now(), stats)
      {
        ghost var depth := |context.subcasesStack|;
        OpenUnwind(opt, suite, depth, reporter.Now(), stats);
        context.subcasesStack := context.subcasesStack[..|context.subcasesStack| - 1];
        reporter.Deliver(SubcaseEnd, InCase(suite, depth));
      }
      OpenUnwind(opt, suite, 0, reporter.Now(), stats);
      reporter.Deliver(TestCaseEnd(stats), InCase(suite, 0));
      reporter.Deliver(TestRunEnd(stats), BetweenCases(Some(suite)));
    }
  }

  /** What a reader sees of a whole test case. */
  ghost function CaseShown(opt: Options, before: Option<string>, v: View, data: TestCaseData, cbs: seq<Callback>,
                           stats: Stats): (r: View)
    requires Fits(BetweenCases(before), v) && After(opt, InCase(data.suite, 0), cbs) == Some(InCase(data.suite, 0))
    ensures Fits(BetweenCases(Some(data.suite)), r)
  {
    CaseGoes(opt, before, data, cbs, stats);
    ShownAll(opt, BetweenCases(before), v, [TestCaseStart(data)] + (cbs + [TestCaseEnd(stats)]))
  }

  lemma CaseGoes(opt: Options, before: Option<string>, data: TestCaseData, cbs: seq<Callback>, stats: Stats)
    requires After(opt, InCase(data.suite, 0), cbs) == Some(InCase(data.suite, 0))
    ensures After(opt, BetweenCases(before), [TestCaseStart(data)] + (cbs + [TestCaseEnd(stats)])) ==
      Some(BetweenCases(Some(data.suite)))
  {
    hide After;
    AfterOne(opt, BetweenCases(before), TestCaseStart(data), cbs + [TestCaseEnd(stats)]);
    AfterAppend(opt, InCase(data.suite, 0), cbs, [TestCaseEnd(stats)]);
    AfterOne(opt, InCase(data.suite, 0), TestCaseEnd(stats), []);
    AfterNone(opt, BetweenCases(Some(data.suite)));
    assert [TestCaseEnd(stats)] + [] == [TestCaseEnd(stats)];
  }

  lemma StartOfCase(opt: Options, before: Option<string>, v: View, data: TestCaseData, p: Program)
    requires Fits(BetweenCases(before), v)
    ensures Next(opt, BetweenCases(before), TestCaseStart(data)) == Some(InCase(data.suite, 0))
    ensures Written(opt, data.suite, Shown(opt, BetweenCases(before), v, TestCaseStart(data)), Callbacks([]), 0,
                    Shown(opt, BetweenCases(before), v, TestCaseStart(data)))
    ensures Logs([]) == LoggedIn(p, [])
  {
    hide Fits, Shown;
    ShownFits(opt, BetweenCases(before), v, TestCaseStart(data));
    NothingWritten(opt, data.suite, Shown(opt, BetweenCases(before), v, TestCaseStart(data)));
    CallbacksNone();
  }

  lemma EndOfCase(opt: Options, before: Option<string>, v: View, data: TestCaseData, cbs: seq<Callback>, stats: Stats,
                  written: View)
    requires Fits(BetweenCases(before), v)
    requires Written(opt, data.suite, Shown(opt, BetweenCases(before), v, TestCaseStart(data)), cbs, 0, written)
    ensures After(opt, InCase(data.suite, 0), cbs) == Some(InCase(data.suite, 0))
    ensures Fits(InCase(data.suite, 0), written)
    ensures CaseShown(opt, before, v, data, cbs, stats) ==
      Shown(opt, InCase(data.suite, 0), written, TestCaseEnd(stats))
  {
    hide Fits, Shown, ShownAll, After;
    var v1 := Shown(opt, BetweenCases(before), v, TestCaseStart(data));
    CaseGoes(opt, before, data, cbs, stats);
    WrittenFits(opt, data.suite, v1, cbs, 0, written);
    ShownOne(opt, BetweenCases(before), v, TestCaseStart(data), cbs + [TestCaseEnd(stats)]);
    ShownAppend(opt, InCase(data.suite, 0), v1, cbs, [TestCaseEnd(stats)]);
    assert [TestCaseEnd(stats)] + [] == [TestCaseEnd(stats)];
    ShownOne(opt, InCase(data.suite, 0), written, TestCaseEnd(stats), []);
    ShownNone(opt, BetweenCases(Some(data.suite)), Shown(opt, InCase(data.suite, 0), written, TestCaseEnd(stats)));
  }

  lemma RunLogged(f: Filters, p: Program, passed: set<seq<Signature>>, before: seq<Sending>, runs: seq<seq<seq<nat>>>)
    requires NotesOnly(p) && Logs(before) == LoggedIn(p, runs)
    ensures var run := before + Sends(f, p, 0, FreshRun(passed));
      var runs' := runs + [Walk(f, Skeleton(p), 0, FreshRun(passed)).entered];
      Logs(run) == Logs(run + [Sending(TestCaseReenter, [])]) == LoggedIn(p, runs')
  {
    hide Walk, Sends, Logs, LoggedIn;
    var run := Sends(f, p, 0, FreshRun(passed));
    RunLogs(f, p, passed);
    LogsAppend(before, run);
    LogsAppend(before + run, [Sending(TestCaseReenter, [])]);
    LogsOne(Sending(TestCaseReenter, []));
    assert Logs(before + run) + [] == Logs(before + run);
    LoggedInMore(p, runs, Walk(f, Skeleton(p), 0, FreshRun(passed)).entered);
  }

  lemma OpenCase(f: Filters, p: Program, passed: set<seq<Signature>>, before: seq<Sending>)
    requires passed <= Paths(Skeleton(p), [])
    ensures var r := Walk(f, Skeleton(p), 0, FreshRun(passed));
      && r.passed <= Paths(Skeleton(p), [])
      && before + CaseSends(f, p, passed, false) ==
        if r.reenter then
          before + Sends(f, p, 0, FreshRun(passed)) + [Sending(TestCaseReenter, [])] + CaseSends(f, p, r.passed, false)
        else before + Sends(f, p, 0, FreshRun(passed))
  {
    hide Walk, Sends, Paths, CaseSends;
    CaseFirst(f, p, passed);
    var r := Walk(f, Skeleton(p), 0, FreshRun(passed));
    var run := Sends(f, p, 0, FreshRun(passed));
    if r.reenter {
      var again, rest := [Sending(TestCaseReenter, [])], CaseSends(f, p, r.passed, false);
      CaseAgain(f, p, r.passed);
      Associates(before, run, again + rest);
      Associates(before + run, again, rest);
    }
  }

  lemma CaseFirst(f: Filters, p: Program, passed: set<seq<Signature>>)
    requires passed <= Paths(Skeleton(p), [])
    ensures var r := Walk(f, Skeleton(p), 0, FreshRun(passed));
      var run := Sends(f, p, 0, FreshRun(passed));
      && r.passed <= Paths(Skeleton(p), [])
      && CaseSends(f, p, passed, false) == if r.reenter then run + CaseSends(f, p, r.passed, true) else run
  {
    hide Walk, Sends, Paths;
    RunProgress(f, Skeleton(p), passed);
    var run := Sends(f, p, 0, FreshRun(passed));
    assert run + [] == run;
  }

  lemma CaseAgain(f: Filters, p: Program, passed: set<seq<Signature>>)
    requires passed <= Paths(Skeleton(p), [])
    ensures CaseSends(f, p, passed, true) == [Sending(TestCaseReenter, [])] + CaseSends(f, p, passed, false)
  {
  }

  /** What a reader sees of the crash path, from where its subcases are taken off the stack. */
  ghost function UnwindShown(opt: Options, suite: string, depth: nat, v: View, stats: Stats): (r: View)
    requires Fits(InCase(suite, depth), v)
    ensures Fits(Finished, r)
  {
    Unwinds(opt, suite, depth, stats);
    ShownAll(opt, InCase(suite, depth), v, Pops(depth) + [TestCaseEnd(stats), TestRunEnd(stats)])
  }

  ghost function CrashShown(opt: Options, suite: string, depth: nat, v: View, text: string, stats: Stats): (r: View)
    requires Fits(InCase(suite, depth), v)
    ensures Fits(Finished, r)
  {
    FatalFinishes(opt, suite, depth, text, depth, stats);
    ShownAll(opt, InCase(suite, depth), v, Fatal(text, depth, stats))
  }

  lemma Unwinds(opt: Options, suite: string, depth: nat, stats: Stats)
    ensures After(opt, InCase(suite, depth), Pops(depth) + [TestCaseEnd(stats), TestRunEnd(stats)]) == Some(Finished)
  {
    FatalFinishes(opt, suite, depth, "", depth, stats);
    var ends := [TestCaseEnd(stats), TestRunEnd(stats)];
    AfterOne(opt, InCase(suite, depth), TestCaseException("", true), Pops(depth) + ends);
  }

  lemma ShownOne(opt: Options, phase: Phase, v: View, cb: Callback, rest: seq<Callback>)
    requires Fits(phase, v) && After(opt, phase, [cb] + rest).Some?
    ensures Next(opt, phase, cb).Some? && Fits(Next(opt, phase, cb).value, Shown(opt, phase, v, cb))
    ensures After(opt, Next(opt, phase, cb).value, rest).Some?
    ensures ShownAll(opt, phase, v, [cb] + rest) ==
      ShownAll(opt, Next(opt, phase, cb).value, Shown(opt, phase, v, cb), rest)
  {
    hide Fits, Shown;
    ShownFits(opt, phase, v, cb);
    assert ([cb] + rest)[1..] == rest;
  }

  lemma OpenCrash(opt: Options, suite: string, depth: nat, v: View, text: string, stats: Stats)
    requires Fits(InCase(suite, depth), v)
    ensures var v' := Shown(opt, InCase(suite, depth), v, TestCaseException(text, true));
      && Fits(InCase(suite, depth), v')
      && CrashShown(opt, suite, depth, v, text, stats) == UnwindShown(opt, suite, depth, v', stats)
  {
    hide Fits, Shown, ShownAll, After;
    FatalFinishes(opt, suite, depth, text, depth, stats);
    ShownOne(opt, InCase(suite, depth), v, TestCaseException(text, true),
             Pops(depth) + [TestCaseEnd(stats), TestRunEnd(stats)]);
  }

  lemma OpenUnwind(opt: Options, suite: string, depth: nat, v: View, stats: Stats)
    requires Fits(InCase(suite, depth), v)
    ensures depth > 0 ==>
      var v' := Shown(opt, InCase(suite, depth), v, SubcaseEnd);
      && Fits(InCase(suite, depth - 1), v')
      && UnwindShown(opt, suite, depth, v, stats) == UnwindShown(opt, suite, depth - 1, v', stats)
    ensures depth == 0 ==>
      var v' := Shown(opt, InCase(suite, 0), v, TestCaseEnd(stats));
      && Fits(BetweenCases(Some(suite)), v')
      && UnwindShown(opt, suite, 0, v, stats) == Shown(opt, BetweenCases(Some(suite)), v', TestRunEnd(stats))
  {
    hide Fits, Shown, ShownAll, After;
    var end, ends := [TestRunEnd(stats)], [TestCaseEnd(stats), TestRunEnd(stats)];
    Unwinds(opt, suite, depth, stats);
    if depth > 0 {
      assert Pops(depth) + ends == [SubcaseEnd] + (Pops(depth - 1) + ends);
      ShownOne(opt, InCase(suite, depth), v, SubcaseEnd, Pops(depth - 1) + ends);
    } else {
      assert Pops(0) + ends == [TestCaseEnd(stats)] + end && end == [TestRunEnd(stats)] + [];
      ShownOne(opt, InCase(suite, 0), v, TestCaseEnd(stats), end);
      var v' := Shown(opt, InCase(suite, 0), v, TestCaseEnd(stats));
      ShownOne(opt, BetweenCases(Some(suite)), v', TestRunEnd(stats), []);
      ShownNone(opt, Finished, Shown(opt, BetweenCases(Some(suite)), v', TestRunEnd(stats)));
    }
  }

  lemma ShownNone(opt: Options, phase: Phase, v: View)
    requires Fits(phase, v)
    ensures ShownAll(opt, phase, v, []) == v
  {
  }

  // ----- what is learned from the document -----

  /** From the document of a test case a listener learns its start, the callbacks sent, and its end. */
  lemma CaseTold(opt: Options, before: Option<string>, v: View, data: TestCaseData, cbs: seq<Callback>, stats: Stats,
                 told: seq<XmlListeners.Placed>)
    requires Fits(BetweenCases(before), v) && After(opt, InCase(data.suite, 0), cbs) == Some(InCase(data.suite, 0))
    requires XmlListeners.Reported(v.doc, told)
    ensures var all := [TestCaseStart(data)] + (cbs + [TestCaseEnd(stats)]);
      && After(opt, BetweenCases(before), all).Some?
      && XmlListeners.Reported(CaseShown(opt, before, v, data, cbs, stats).doc,
                             told + XmlListeners.ToldAll(opt, BetweenCases(before), v.tc, all))
  {
    hide Fits, Shown, ShownAll, After, XmlListeners.Reported, XmlListeners.ToldAll;
    CaseGoes(opt, before, data, cbs, stats);
    XmlReports.AllTold(opt, BetweenCases(before), v, [TestCaseStart(data)] + (cbs + [TestCaseEnd(stats)]), told);
  }

  /** From the document of a crash a listener learns of a crash with the given text, at the depth where it
    happened, and then the numbers of the test case and of the run. */
  lemma CrashTold(opt: Options, suite: string, depth: nat, v: View, text: string, stats: Stats,
                  told: seq<XmlListeners.Placed>)
    requires Fits(InCase(suite, depth), v) && XmlListeners.Reported(v.doc, told)
    ensures XmlListeners.Reported(CrashShown(opt, suite, depth, v, text, stats).doc, told +
        ([XmlListeners.Placed(3 + depth, XmlListeners.Exception(true, XmlListeners.AsHeard(text)))]
         + XmlListeners.Told(opt, 3, v.tc, TestCaseEnd(stats)) + XmlListeners.Told(opt, 2, v.tc, TestRunEnd(stats))))
  {
    hide Fits, Shown, ShownAll, XmlListeners.Reported, XmlListeners.AsHeard, After, XmlListeners.AsRead,
      XmlListeners.MaybeRead;
    var crashed := [XmlListeners.Placed(3 + depth, XmlListeners.Exception(true, XmlListeners.AsHeard(text)))];
    FatalFinishes(opt, suite, depth, text, depth, stats);
    XmlReports.AllTold(opt, InCase(suite, depth), v, Fatal(text, depth, stats), told);
    var ends := [TestCaseEnd(stats), TestRunEnd(stats)];
    AfterOne(opt, InCase(suite, depth), TestCaseException(text, true), Pops(depth) + ends);
    ToldOne(opt, InCase(suite, depth), v.tc, TestCaseException(text, true), Pops(depth) + ends);
    PopsTold(opt, suite, depth, v.tc, stats);
    Associates(crashed, XmlListeners.Told(opt, 3, v.tc, TestCaseEnd(stats)),
               XmlListeners.Told(opt, 2, v.tc, TestRunEnd(stats)));
  }

  lemma ToldOne(opt: Options, phase: Phase, tc: Option<TestCaseData>, cb: Callback, rest: seq<Callback>)
    requires After(opt, phase, [cb] + rest).Some?
    ensures Next(opt, phase, cb).Some? && After(opt, Next(opt, phase, cb).value, rest).Some?
    ensures XmlListeners.ToldAll(opt, phase, tc, [cb] + rest) ==
      XmlListeners.Told(opt, XmlListeners.Around(phase), tc, cb)
      + XmlListeners.ToldAll(opt, Next(opt, phase, cb).value, XmlListeners.LatestCase(opt, tc, cb), rest)
  {
    assert ([cb] + rest)[1..] == rest;
  }

  lemma {:induction false} PopsTold(opt: Options, suite: string, depth: nat, tc: Option<TestCaseData>, stats: Stats)
    ensures var cbs := Pops(depth) + [TestCaseEnd(stats), TestRunEnd(stats)];
      && After(opt, InCase(suite, depth), cbs) == Some(Finished)
      && XmlListeners.ToldAll(opt, InCase(suite, depth), tc, cbs) ==
        XmlListeners.Told(opt, 3, tc, TestCaseEnd(stats)) + XmlListeners.Told(opt, 2, tc, TestRunEnd(stats))
    decreases depth
  {
    hide XmlListeners.ToldAll, After, XmlListeners.AsRead, XmlListeners.MaybeRead;
    var ends := [TestCaseEnd(stats), TestRunEnd(stats)];
    Unwinds(opt, suite, depth, stats);
    if depth > 0 {
      var rest := Pops(depth - 1) + ends;
      assert Pops(depth) + ends == [SubcaseEnd] + rest;
      ToldOne(opt, InCase(suite, depth), tc, SubcaseEnd, rest);
      PopsTold(opt, suite, depth - 1, tc, stats);
      var told := XmlListeners.ToldAll(opt, InCase(suite, depth - 1), tc, rest);
      assert [] + told == told;
    } else {
      assert Pops(0) + ends == ends;
      EndsTold(opt, suite, tc, stats);
    }
  }

  lemma EndsTold(opt: Options, suite: string, tc: Option<TestCaseData>, stats: Stats)
    requires After(opt, InCase(suite, 0), [TestCaseEnd(stats), TestRunEnd(stats)]).Some?
    ensures XmlListeners.ToldAll(opt, InCase(suite, 0), tc, [TestCaseEnd(stats), TestRunEnd(stats)]) ==
      XmlListeners.Told(opt, 3, tc, TestCaseEnd(stats)) + XmlListeners.Told(opt, 2, tc, TestRunEnd(stats))
  {
    hide XmlListeners.ToldAll, XmlListeners.Told, After;
    var end := [TestRunEnd(stats)];
    assert [TestCaseEnd(stats), TestRunEnd(stats)] == [TestCaseEnd(stats)] + end && end == [TestRunEnd(stats)] + [];
    ToldOne(opt, InCase(suite, 0), tc, TestCaseEnd(stats), end);
    ToldOne(opt, BetweenCases(Some(suite)), tc, TestRunEnd(stats), []);
    NothingMoreTold(opt, tc);
    var last := XmlListeners.Told(opt, 2, tc, TestRunEnd(stats));
    assert last + [] == last;
  }

  lemma NothingMoreTold(opt: Options, tc: Option<TestCaseData>)
    ensures After(opt, Finished, []) == Some(Finished) && XmlListeners.ToldAll(opt, Finished, tc, []) == []
  {
  }

  // ----- a whole run -----

  function NothingYet(): View {
    View(None, XmlWriters.Doc([], []))
  }

  /** The document stands for the callbacks sent so far. */
  ghost predicate StandsFor(opt: Options, cbs: seq<Callback>, phase: Phase, v: View) {
    && Fits(NotStarted, NothingYet())
    && After(opt, NotStarted, cbs) == Some(phase)
    && v == ShownAll(opt, NotStarted, NothingYet(), cbs)
  }

  ghost predicate Progress(opt: Options, f: Filters, tests: seq<Test>, suite: Option<string>, v: View) {
    StandsFor(opt, [TestRunStart] + EmitCases(CasesOf(f, tests)), BetweenCases(suite), v)
  }

  /** The document of a whole run stands for all its callbacks, has every element closed, and tells them. */
  ghost predicate RunWritten(opt: Options, f: Filters, tests: seq<Test>, stats: Stats, v: View) {
    var cbs := [TestRunStart] + EmitCases(CasesOf(f, tests)) + [TestRunEnd(stats)];
    && StandsFor(opt, cbs, Finished, v)
    && v.doc.tags == []
    && XmlListeners.Reports(v.doc) == XmlListeners.ToldAll(opt, NotStarted, None, cbs)
  }

  lemma StandsForFits(opt: Options, cbs: seq<Callback>, phase: Phase, v: View)
    requires StandsFor(opt, cbs, phase, v)
    ensures Fits(phase, v)
  {
    hide Fits;
  }

  lemma StandsForMore(opt: Options, cbs: seq<Callback>, phase: Phase, v: View, more: seq<Callback>, phase': Phase)
    requires StandsFor(opt, cbs, phase, v) && After(opt, phase, more) == Some(phase')
    ensures Fits(phase, v) && StandsFor(opt, cbs + more, phase', ShownAll(opt, phase, v, more))
  {
    hide Fits, After, ShownAll;
    StandsForFits(opt, cbs, phase, v);
    AfterAppend(opt, NotStarted, cbs, more);
    ShownAppend(opt, NotStarted, NothingYet(), cbs, more);
  }

  lemma ShownSingle(opt: Options, phase: Phase, v: View, cb: Callback)
    requires Fits(phase, v) && Next(opt, phase, cb).Some?
    ensures After(opt, phase, [cb]) == Next(opt, phase, cb)
    ensures ShownAll(opt, phase, v, [cb]) == Shown(opt, phase, v, cb)
  {
    hide Fits, Shown, ShownAll, After;
    var next := Next(opt, phase, cb).value;
    assert [cb] + [] == [cb];
    AfterOne(opt, phase, cb, []);
    AfterNone(opt, next);
    ShownOne(opt, phase, v, cb, []);
    ShownNone(opt, next, Shown(opt, phase, v, cb));
  }

  lemma StartOfRun(opt: Options, f: Filters)
    ensures Fits(NotStarted, NothingYet())
    ensures Progress(opt, f, [], None, Shown(opt, NotStarted, NothingYet(), TestRunStart))
  {
    hide Shown, ShownAll;
    ShownSingle(opt, NotStarted, NothingYet(), TestRunStart);
    assert CasesOf(f, []) == [] && [TestRunStart] + [] == [TestRunStart];
  }

  lemma {:induction false} EmitCasesMore(cases: seq<Case>, c: Case)
    ensures EmitCases(cases + [c]) == EmitCases(cases) + EmitCase(c)
    decreases |cases|
  {
    if cases == [] {
      assert [] + [c] == [c] && [c][1..] == [];
      assert EmitCases([]) == [] && EmitCase(c) + [] == EmitCase(c) == [] + EmitCase(c);
    } else {
      EmitCasesMore(cases[1..], c);
      assert (cases + [c])[1..] == cases[1..] + [c] && (cases + [c])[0] == cases[0];
      Associates(EmitCase(cases[0]), EmitCases(cases[1..]), EmitCase(c));
    }
  }

  lemma ProgressMore(opt: Options, f: Filters, tests: seq<Test>, suite: Option<string>, v: View, t: Test,
                     suite': Option<string>)
    requires Progress(opt, f, tests, suite, v)
    requires After(opt, BetweenCases(suite), EmitCase(CaseOf(f, t))) == Some(BetweenCases(suite'))
    ensures Fits(BetweenCases(suite), v)
    ensures Progress(opt, f, tests + [t], suite', ShownAll(opt, BetweenCases(suite), v, EmitCase(CaseOf(f, t))))
  {
    hide Fits, After, ShownAll, StandsFor, EmitCases, EmitCase, CaseOf;
    var cbs := [TestRunStart] + EmitCases(CasesOf(f, tests));
    StandsForMore(opt, cbs, BetweenCases(suite), v, EmitCase(CaseOf(f, t)), BetweenCases(suite'));
    assert CasesOf(f, tests + [t]) == CasesOf(f, tests) + [CaseOf(f, t)];
    EmitCasesMore(CasesOf(f, tests), CaseOf(f, t));
    Associates([TestRunStart], EmitCases(CasesOf(f, tests)), EmitCase(CaseOf(f, t)));
  }

  lemma OneMoreTest(opt: Options, f: Filters, tests: seq<Test>, suite: Option<string>, v: View, t: Test)
    requires Progress(opt, f, tests, suite, v) && TestOk(t)
    ensures Fits(BetweenCases(suite), v)
    ensures t.SkippedTest? ==>
      Progress(opt, f, tests + [t], if opt.noSkippedSummary then suite else Some(t.data.suite),
               Shown(opt, BetweenCases(suite), v, TestCaseSkipped(t.data)))
    ensures t.ExecutedTest? ==>
      var cbs := Callbacks(CaseSends(f, t.program, {}, false));
      && After(opt, InCase(t.data.suite, 0), cbs) == Some(InCase(t.data.suite, 0))
      && Progress(opt, f, tests + [t], Some(t.data.suite), CaseShown(opt, suite, v, t.data, cbs, t.stats))
  {
    hide Fits, Shown, ShownAll, After, StandsFor, EmitCases, CaseSends, Callbacks, Progress, NotesOnly, CaseScripts;
    ProgressFits(opt, f, tests, suite, v);
    match t
    case SkippedTest(data) =>
      ShownSingle(opt, BetweenCases(suite), v, TestCaseSkipped(data));
      ProgressMore(opt, f, tests, suite, v, t, if opt.noSkippedSummary then suite else Some(data.suite));
    case ExecutedTest(data, program, stats) =>
      var sends := CaseSends(f, program, {}, false);
      TestIsCase(f, t);
      CaseSendsInStep(opt, data.suite, f, program, {}, false);
      InStepToTheEnd(opt, data.suite, [], sends);
      CaseGoes(opt, suite, data, Callbacks(sends), stats);
      ProgressMore(opt, f, tests, suite, v, t, Some(data.suite));
  }

  lemma InStepToTheEnd(opt: Options, suite: string, before: seq<Signature>, s: seq<Sending>)
    requires InStep(opt, suite, before, s)
    ensures After(opt, InCase(suite, |before|), Callbacks(s)) == Some(InCase(suite, |StackAfter(before, s)|))
  {
    assert s[..|s|] == s;
  }

  lemma ProgressFits(opt: Options, f: Filters, tests: seq<Test>, suite: Option<string>, v: View)
    requires Progress(opt, f, tests, suite, v)
    ensures Fits(BetweenCases(suite), v)
  {
    hide Fits, StandsFor, EmitCases;
    StandsForFits(opt, [TestRunStart] + EmitCases(CasesOf(f, tests)), BetweenCases(suite), v);
  }

  lemma EndOfRun(opt: Options, f: Filters, tests: seq<Test>, suite: Option<string>, v: View, stats: Stats)
    requires Progress(opt, f, tests, suite, v)
    ensures Fits(BetweenCases(suite), v)
    ensures RunWritten(opt, f, tests, stats, Shown(opt, BetweenCases(suite), v, TestRunEnd(stats)))
  {
    hide Fits, Shown, ShownAll, After, EmitCases, XmlListeners.Reports, XmlListeners.ToldAll, XmlListeners.Reported;
    ProgressFits(opt, f, tests, suite, v);
    ShownSingle(opt, BetweenCases(suite), v, TestRunEnd(stats));
    var before := [TestRunStart] + EmitCases(CasesOf(f, tests));
    StandsForMore(opt, before, BetweenCases(suite), v, [TestRunEnd(stats)], Finished);
    var cbs, w := before + [TestRunEnd(stats)], Shown(opt, BetweenCases(suite), v, TestRunEnd(stats));
    FinishedIsClosed(opt, cbs, w);
    XmlReports.NothingTold();
    XmlReports.AllTold(opt, NotStarted, NothingYet(), cbs, []);
    var told := XmlListeners.ToldAll(opt, NotStarted, None, cbs);
    assert [] + told == told;
    XmlReports.ReportedAll(w.doc, told);
  }

  lemma FinishedIsClosed(opt: Options, cbs: seq<Callback>, v: View)
    requires StandsFor(opt, cbs, Finished, v)
    ensures v.doc.tags == []
  {
    StandsForFits(opt, cbs, Finished, v);
  }
}
