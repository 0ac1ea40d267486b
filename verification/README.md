# Verified models of rpi-fan-serve and the two libraries it carries

The service reads a fan controller's log files, caches their data and postpones the saving of its
configuration. Its repository also carries the argparse command-line parser and the doctest test
framework. This project models the parts with the most state and branching, in Dafny 4.11, and
proves what they are for.

| file | module | what it models |
|---|---|---|
| `Common.dfy` | `Common` | an optional value, the range of `int`, numbers in base ten, and the associativity of concatenation |
| `Wildcard.dfy` | `Wildcard` | doctest's wildcard matcher and the filters built on it |
| `Subcases.dfy` | `Subcases` | doctest's subcase protocol: which subcases each execution of a test body enters |
| `SmallString.dfy` | `SmallString` | doctest's string with a 24-byte buffer, its heap blocks, and several strings on one heap |
| `XmlEncoding.dfy` | `XmlEncoding` | the escaping of XML text and attribute values |
| `XmlWriter.dfy` | `XmlWriters` | the XML writer, and a character-by-character XML reader to judge it by |
| `XmlReporter.dfy` | `XmlReporters` | the XML reporter's callbacks, and which may follow which |
| `XmlListener.dfy` | `XmlListeners` | a listener who puts together from the marks of a document what was reported |
| `XmlReports.dfy` | `XmlReports` | what the listener learns from the reporter's documents |
| `Engine.dfy` | `Engine` | doctest's engine: test bodies run again and again until every leaf was reached, the stack of subcases, the callbacks sent, crashes |
| `DecimalLiteral.dfy` | `DecimalLiteral` | argparse's goto machine for negative numbers and the grammar above it |
| `Arguments.dfy` | `Arguments` | argparse's arguments, registration, parse loop and checks |
| `LogDate.dfy` | `LogDates` | the dates of log lines |
| `LogLine.dfy` | `LogLine` | reading one log line |
| `LogChunks.dfy` | `LogChunks` | cutting a log file into chunks, parsing them in parallel, merging |
| `TempsCtrl.dfy` | `TempsController` | the cache timer and the postponed saving of the configuration |

Code that changes state is a class or a loop here as well. Each method is proved against a function
on values; the theorems are lemmas about those functions, or the methods' own postconditions where
the specification is independent of the code. `dafny verify dfyconfig.toml` checks everything.

Three places where the code does less than one would expect are stated exactly:

* A SUBCASE met twice on one level, as in a loop, is entered only the first time. All leaves are
  reached, one per run and in order, if and only if no two visible siblings share a signature
  (`RunTestCase`, `TwinsSpoilRuns`, `SubcaseInALoop`).
* The guard against `]]>` in XML text looks back only from the fourth byte on, so the output contains
  `]]>` if and only if the input starts with it (`CdataEndExactly`). A four-byte form of U+0800 and
  surrogates pass as UTF-8 (`GroupsAreTheTable`).
* Below two minutes of life expectancy the cache can expire before the timer renews it
  (`CacheStaysAhead`), and levels of three digits lose their line while longer ones lose their last
  three digits (`ExtractFormatted`).

One result is better than the code suggests: since every chunk also takes its line ends out of the
file, there are never more tasks than `maxjobs` (`TasksBounded`).

## Model

| member | source | states |
|---|---|---|
| Wildcard.WildCmp | subprojects/argparse/test/doctest.hpp:3453-3487 | answers yes exactly when the mask matches the string in its declared meaning (`*` any run, `?` any character, optional case folding); all positions stay inside the strings and the loops terminate |
| Wildcard.LaterStarSuffices | subprojects/argparse/test/doctest.hpp:3466-3481 | going back to the last star only loses nothing: what an earlier restart could match, a restart behind the newer star matches |
| Wildcard.NoRestartAtEnd | subprojects/argparse/test/doctest.hpp:3483-3486 | when the string is used up no restart can match any more, so only stars may remain of the mask |
| Wildcard.MatchesAny | subprojects/argparse/test/doctest.hpp:3499-3507 | true exactly when there is no filter and that counts as a match, or some filter matches |
| Wildcard.PlainMask | subprojects/argparse/test/doctest.hpp:3453-3487 | a mask without wildcards matches itself only, up to case where that does not matter |
| Subcases.HiddenExactly | subprojects/argparse/test/doctest.hpp:3515-3521 | a subcase is hidden, on the first levels only, by inclusive filters none of which matches it or an exclusive one that does |
| Subcases.UnfilteredLeaves | subprojects/argparse/test/doctest.hpp:3515-3521 | without filters every block that holds no others is a visible leaf |
| Subcases.ContextState.EnterSubcase | subprojects/argparse/test/doctest.hpp:3511-3541 | the constructor's decision and whole new state, filters included |
| Subcases.ContextState.LeaveSubcase | subprojects/argparse/test/doctest.hpp:3547-3552 | a block is marked passed only if nothing was skipped; the stack loses its top |
| Subcases.SkipsRest | subprojects/argparse/test/doctest.hpp:3523-3527 | once a subcase of this level was entered, the rest of the level enters nothing and only asks for another run |
| Subcases.WalkKeeps | subprojects/argparse/test/doctest.hpp:3523-3552 | every execution of every body keeps level and re-enter flag consistent with the stack, and if it enters anything it marks a path that was not marked before |
| Subcases.WalkVisitsNextLeaf | subprojects/argparse/test/doctest.hpp:3523-3552 | with the first k leaves passed, a body enters the single nested chain to leaf k, marks just that leaf and the ancestors it completes, and asks for another run exactly when a leaf is left |
| Subcases.RunAddsOneLeaf | subprojects/argparse/test/doctest.hpp:5832-5870 | a whole run enters the chain of the next leaf, adds exactly that leaf, and re-enters exactly when it was not the last |
| Subcases.ClosedBetweenRuns | subprojects/argparse/test/doctest.hpp:3549-3550 | between runs a block is in the passed set exactly when every leaf below it is |
| Subcases.WalkEntersChain | subprojects/argparse/test/doctest.hpp:3523-3535 | every execution of every body, whatever its signatures, enters a single nested chain |
| Subcases.WalkEntersFirsts | subprojects/argparse/test/doctest.hpp:3523-3535 | no run ever enters a block behind a visible sibling with its signature, nor anything inside it |
| Subcases.TwinsSpoilRuns | subprojects/argparse/test/doctest.hpp:3531-3535 | so with equal siblings some leaf is in none of the runs, and the runs are not the expected ones |
| Subcases.SubcaseInALoop | subprojects/argparse/test/doctest.hpp:3523-3535 | a concrete body: one SUBCASE met twice has two leaves, but its second run enters nothing |
| SmallString.String.FromChars | subprojects/argparse/test/doctest.hpp:3030-3041 | holds the given characters, on the stack up to 23 of them; a NUL follows exactly if one was given or the buffer is full |
| SmallString.String.Copy | subprojects/argparse/test/doctest.hpp:3005-3015 | same characters, a block of its own, the other string untouched |
| SmallString.String.FromCopy | subprojects/argparse/test/doctest.hpp:3043 | a copy that shares nothing with its origin |
| SmallString.String.Assign | subprojects/argparse/test/doctest.hpp:3045-3054 | takes over the characters, gives back its old block, shares nothing; assigning to itself changes nothing |
| SmallString.String.Append | subprojects/argparse/test/doctest.hpp:3056-3103 | the characters are the concatenation, terminated if the other string is; every block given back or taken is accounted for |
| SmallString.String.AppendOnHeap | subprojects/argparse/test/doctest.hpp:3080-3100 | in place if the capacity allows, else in a new block of twice the capacity, wrapped at 32 bits, or of just the size needed if that is not enough |
| SmallString.String.Plus | subprojects/argparse/test/doctest.hpp:3105 | the result is the concatenation, in storage of its own |
| SmallString.String.Move | subprojects/argparse/test/doctest.hpp:3107-3111 | takes characters and block over and leaves an empty string |
| SmallString.String.MoveAssign | subprojects/argparse/test/doctest.hpp:3113-3122 | the same after giving back its own block |
| SmallString.String.Get | subprojects/argparse/test/doctest.hpp:3128-3132 | the character at a position, or the byte behind the last one |
| SmallString.String.Set | subprojects/argparse/test/doctest.hpp:3128-3132 | writing one character changes that one only |
| SmallString.String.Size | subprojects/argparse/test/doctest.hpp:3135-3139 | the number of characters, read from the last byte or the view |
| SmallString.String.Destroy | subprojects/argparse/test/doctest.hpp:3022-3025 | gives back exactly the block the string owns |
| SmallString.ExchangeKeepsExclusive | subprojects/argparse/test/doctest.hpp:3045-3103 | with several strings, an operation that exchanges one string's blocks for its own or new ones leaves no block shared, leaked or used after being given back |
| SmallString.MoveKeepsExclusive | subprojects/argparse/test/doctest.hpp:3113-3122 | the same for handing a block from one string to another |
| SmallString.AppendAmong | subprojects/argparse/test/doctest.hpp:3056-3103 | appending among several strings keeps all others and the soundness of the heap |
| SmallString.AssignAmong | subprojects/argparse/test/doctest.hpp:3045-3054 | assigning among several strings does so too |
| SmallString.MoveAmong | subprojects/argparse/test/doctest.hpp:3113-3122 | moving among several strings does so too |
| XmlEncoding.EncodeTo | subprojects/argparse/test/doctest.hpp:4383-4475 | the loop writes the concatenation of the pieces the lemmas below are about |
| XmlEncoding.GroupsAreTheTable | subprojects/argparse/test/doctest.hpp:4426-4469 | the bit arithmetic accepts a multi-byte group exactly when it is in the table of section 4 of RFC 3629 with surrogates allowed, or the four-byte U+0800 |
| XmlEncoding.RoundTrip | subprojects/argparse/test/doctest.hpp:4383-4475 | in both modes, decoding the entities gives back the input if and only if the input is plain ASCII and well-formed groups |
| XmlEncoding.DecodeEncode | subprojects/argparse/test/doctest.hpp:4383-4475 | every hex escape makes the decoded text exactly three bytes longer; without any it is the input |
| XmlEncoding.UnchangedExactly | subprojects/argparse/test/doctest.hpp:4383-4475 | text is left as it is if and only if it is well-formed and nothing in it needs an entity: no quote outside attributes does, and no `>` but that of a `]]>` from the fourth byte on |
| XmlEncoding.HexTellsByte | subprojects/argparse/test/doctest.hpp:4368-4374 | a hex escape is a backslash, an x, and two upper-case digits that tell the byte |
| XmlEncoding.OutputIsHarmless | subprojects/argparse/test/doctest.hpp:4383-4475 | the output has no `<`, no `"` in attributes, no control byte, `&` only at an entity, and every byte from 0x80 on inside a well-formed group |
| XmlEncoding.CdataEndExactly | subprojects/argparse/test/doctest.hpp:4393-4399 | the output contains `]]>` if and only if the input starts with it, and then only at its start |
| XmlWriters.XmlWriter.StartElement | subprojects/argparse/test/doctest.hpp:4520-4528 | the characters written, and for a reader of them: one more open element |
| XmlWriters.XmlWriter.EndElement | subprojects/argparse/test/doctest.hpp:4536-4549 | the characters written, and for a reader of them: the innermost element closed by its own name |
| XmlWriters.XmlWriter.CloseAll | subprojects/argparse/test/doctest.hpp:4515-4518 | the destructor closes whatever is open, so that a reader finds the document complete |
| XmlWriters.XmlWriter.WriteAttribute | subprojects/argparse/test/doctest.hpp:4551-4561 | a reader sees exactly this attribute with its encoded value; empty ones are left out |
| XmlWriters.XmlWriter.WriteFlag | subprojects/argparse/test/doctest.hpp:4563-4566 | a reader sees the attribute with `true` or `false` |
| XmlWriters.XmlWriter.WriteText | subprojects/argparse/test/doctest.hpp:4568-4578 | a reader sees the encoded text inside the innermost element |
| XmlWriters.XmlWriter.EnsureTagClosed | subprojects/argparse/test/doctest.hpp:4597-4602 | ends an open start tag without changing what was read |
| XmlWriters.XmlWriter.NewlineIfNecessary | subprojects/argparse/test/doctest.hpp:4608-4613 | a line end that a reader does not notice |
| XmlWriters.ReadAttribute | subprojects/argparse/test/doctest.hpp:4551-4555 | the characters of an attribute are read as that attribute, because an encoded value cannot end it early |
| XmlWriters.ReadEnd | subprojects/argparse/test/doctest.hpp:4543 | an end tag is read as closing the innermost element if it carries its name |
| XmlReporters.XmlReporter.Deliver | subprojects/argparse/test/doctest.hpp:4712-4847 | after any callback that may come, a reader of the characters sees what the callback stands for, appended to what was there |
| XmlReporters.XmlReporter.DeliverAll | subprojects/argparse/test/doctest.hpp:4712-4847 | the same for every legal sequence of callbacks |
| XmlReporters.XmlReporter.TestCaseStartImpl | subprojects/argparse/test/doctest.hpp:4649-4679 | the suite stays open while it does not change, else it is closed and the new one opened; then the case with its attributes |
| XmlReporters.XmlReporter.OnTestRunStart | subprojects/argparse/test/doctest.hpp:4712-4735 | the root element and the options |
| XmlReporters.XmlReporter.OnTestRunEnd | subprojects/argparse/test/doctest.hpp:4737-4754 | the suite closed if there is one, the two summaries, the root closed |
| XmlReporters.XmlReporter.OnTestCaseStart | subprojects/argparse/test/doctest.hpp:4756-4759 | the case opened, its suite before it where that changed |
| XmlReporters.XmlReporter.OnTestCaseEnd | subprojects/argparse/test/doctest.hpp:4763-4775 | the summary of the case, and the case closed |
| XmlReporters.XmlReporter.OnTestCaseException | subprojects/argparse/test/doctest.hpp:4777-4783 | one element with the text, closed again |
| XmlReporters.XmlReporter.OnSubcaseStart | subprojects/argparse/test/doctest.hpp:4785-4793 | one more open element with its location |
| XmlReporters.XmlReporter.OnLogAssert | subprojects/argparse/test/doctest.hpp:4797-4824 | nothing for a passed assertion unless asked for, else one element with its parts, closed again |
| XmlReporters.XmlReporter.OnLogMessage | subprojects/argparse/test/doctest.hpp:4826-4839 | one element with text and contexts, closed again |
| XmlReporters.XmlReporter.OnTestCaseSkipped | subprojects/argparse/test/doctest.hpp:4841-4847 | an empty case marked as skipped, or nothing at all |
| XmlReporters.ShownFits | subprojects/argparse/test/doctest.hpp:4649-4847 | between callbacks the open elements are doctest, TestSuite, TestCase and one SubCase per entered subcase, as far as the run has come |
| XmlListeners.DecodeSqueezed | subprojects/argparse/test/doctest.hpp:4383-4475 | white space in a text can be left out before or after decoding, so that the listener learns the text itself |
| XmlReports.ShownTold | subprojects/argparse/test/doctest.hpp:4649-4847 | from the marks of the document alone the listener learns just what the callback told: of an assertion its outcome, type, location and texts, of cases and subcases their names and locations, of summaries their numbers, each in its place |
| XmlReports.AllTold | subprojects/argparse/test/doctest.hpp:4649-4847 | the same, in order, for every legal sequence of callbacks |
| XmlReports.ReportAll | subprojects/argparse/test/doctest.hpp:4510-4847 | after a finished run a reader gets through all characters, finds every element closed, and the listener learns all that the callbacks told and nothing else |
| XmlReporters.EmitIsLegal | subprojects/argparse/test/doctest.hpp:3540-3562 | whatever a test body logs and however it nests subcases, its callbacks are legal and lead back to the same depth |
| XmlReporters.RunIsLegal | subprojects/argparse/test/doctest.hpp:5766-5887 | whatever cases are skipped or run, with any number of re-entries, the engine's callbacks are legal and finish the run |
| Engine.SendsInStep | subprojects/argparse/test/doctest.hpp:3511-3562 | after every callback of every execution of a body the depth the reporter has reached is the size of the engine's stack of subcases, and in the end the stack is as before |
| Engine.CaseSendsInStep | subprojects/argparse/test/doctest.hpp:5824-5871 | the same for all runs of a test case, re-entries included |
| Engine.SendsItsScript | subprojects/argparse/test/doctest.hpp:3511-3562 | what an execution sends is one of the scripts that are legal |
| Engine.CaseSendsItsScripts | subprojects/argparse/test/doctest.hpp:5824-5871 | what a test case sends are the runs of such scripts, so that whole runs of the engine are legal |
| Engine.FatalFinishes | subprojects/argparse/test/doctest.hpp:4087-4102 | the crash path finishes the run if and only if it pops as often as subcases are open |
| Engine.CrashIsLegal | subprojects/argparse/test/doctest.hpp:4087-4102 | a signal after any callback of any case, however deep in subcases: the crash path finishes the run if and only if the number of pops is the size of the engine's stack at that moment |
| Engine.TestRunner.Send | subprojects/argparse/test/doctest.hpp:3540-3562 | after any callback the reporter has written all that was sent in this case, and the open elements are doctest, TestSuite, TestCase and one SubCase per entry of the stack |
| Engine.SendsAnnounceTop | subprojects/argparse/test/doctest.hpp:3540 | a subcase is announced when it is on top of the stack, under its own name, file and line |
| Engine.RunLogs | subprojects/argparse/test/doctest.hpp:3511-3562 | what a run logs are, in order, exactly the notes of the test body that lie in no section outside the chain it enters |
| Engine.CaseTold | subprojects/argparse/test/doctest.hpp:5824-5878 | from the document of a test case a listener learns its start, all that was sent, and its end |
| Engine.CrashTold | subprojects/argparse/test/doctest.hpp:4087-4102 | from the document of a crash a listener learns its text and depth, and the numbers of case and run |
| Engine.TestRunner.RunProgram | subprojects/argparse/test/doctest.hpp:3511-3562 | one execution of a test body in place is the walk of the lemmas above, sends the callbacks of the lemmas above, and the reporter has written them all |
| Engine.TestRunner.RunTestCase | subprojects/argparse/test/doctest.hpp:5824-5878 | for every body the loop terminates; each run is one nested chain; the runs are exactly the root-to-leaf chains, one per leaf from left to right (one empty run if there is no subcase), if and only if no two visible siblings share a signature, else some leaf is in no run; what is logged are the notes along the runs; and the document has grown by the start of the case, all that was sent, and its end |
| Engine.TestRunner.RunTests | subprojects/argparse/test/doctest.hpp:5766-5887 | a whole run of skipped and executed tests: the document stands for the callbacks of all of them, every element is closed, and a listener learns from it, in order, all they told |
| Engine.TestRunner.ReportFatal | subprojects/argparse/test/doctest.hpp:4087-4102 | after any callback the crash path empties the stack, and a reader finds what it stands for and every element closed |
| DecimalLiteral.IsDecimalLiteral | subprojects/argparse/include/argparse/argparse.hpp:582-719 | accepts a string exactly when it derives from the grammar, although it always takes the longest run of digits and never goes back |
| DecimalLiteral.IsPositional | subprojects/argparse/include/argparse/argparse.hpp:725-746 | a token is positional exactly when it is empty, a lone dash, a negative number, or does not start with a dash |
| Arguments.Argument.Consume | subprojects/argparse/include/argparse/argparse.hpp:435-477 | the whole new state of an argument and the position behind its tokens, in every case and for every error |
| Arguments.Argument.Validate | subprojects/argparse/include/argparse/argparse.hpp:482-515 | the check as the function the next lemma is about |
| Arguments.ValidateExactly | subprojects/argparse/include/argparse/argparse.hpp:482-515 | after a parse, for an argument without default and append: a wrong count is reported for a used flag and for no other optional argument, a missing one exactly if required, and a positional passes exactly if it got its values |
| Arguments.CheckedExactly | subprojects/argparse/include/argparse/argparse.hpp:482-515 | for every argument, those with a default or append included, and every state: when each of the three checks fails |
| Arguments.OneTurn | subprojects/argparse/include/argparse/argparse.hpp:1017-1063 | every turn of the loop that goes on takes a token or serves a positional, so the loop terminates |
| Arguments.ParseExactly | subprojects/argparse/include/argparse/argparse.hpp:1011-1063 | the parse ends in just the one way its tokens can be routed: option tokens are served by the arguments they name, letter by letter if compound, positional tokens by the positional arguments in order, each taking just the tokens it is entitled to, up to the end, a token that asks for help or version, or one that cannot be routed, each error for its own reason; a routing to the end is unique |
| Arguments.ParseRoutes | subprojects/argparse/include/argparse/argparse.hpp:1011-1063 | however a parse ends, it has routed the tokens up to there, and there is a reason to end so |
| Arguments.RoutedParses | subprojects/argparse/include/argparse/argparse.hpp:1011-1063 | conversely the parse ends as any routing says |
| Arguments.ParseAccountsForTokens | subprojects/argparse/include/argparse/argparse.hpp:1011-1063 | on success the tokens split in order into option tokens and slices, each slice going to the argument it is meant for; each argument is used exactly if it got a slice, by the name of the last one, and holds, in order, what its own slices amount to |
| Arguments.ParseKeepsCounts | subprojects/argparse/include/argparse/argparse.hpp:435-477 | over a whole parse an argument without default and append holds no value if unused, as many as declared if used, and one if it is a flag |
| Arguments.FreshParseChecks | subprojects/argparse/include/argparse/argparse.hpp:482-515 | after a whole successful parse from a fresh parser, for an argument without default and append: which check fails is decided by whether it got a slice; a wrong count is reported only for a flag that got one, and for each of those |
| Arguments.CompoundIsSeparate | subprojects/argparse/include/argparse/argparse.hpp:1042-1060 | a compound token whose letters can be read separately leaves the same arguments and the same outcome as its letters written one by one, whatever follows |
| Arguments.ArgumentParser.ParseTurn | subprojects/argparse/include/argparse/argparse.hpp:1017-1063 | one turn of the loop in place, help, version and all errors included |
| Arguments.ArgumentParser.ParseLetters | subprojects/argparse/include/argparse/argparse.hpp:1045-1057 | the letters of a compound token in place |
| Arguments.ArgumentParser.ParseArgsInternal | subprojects/argparse/include/argparse/argparse.hpp:1011-1063 | the loop in place is the parse of the lemmas above |
| Arguments.ArgumentParser.ParseArgsValidate | subprojects/argparse/include/argparse/argparse.hpp:1068-1075 | succeeds exactly when every indexed argument passes, else reports the failing check of the first name in order |
| Arguments.ArgumentParser.ParseArgs | subprojects/argparse/include/argparse/argparse.hpp:897-900 | on a fresh parser: it shows help or version, or fails with an error, exactly where the tokens can be routed up to the reason for that; else it succeeds exactly if all checks pass, and reports the failing one of the first name in order; on success the routing is unique, every argument holds what its slices amount to, and the counts are as declared |
| Arguments.ArgumentParser.AddArgument | subprojects/argparse/include/argparse/argparse.hpp:850-861 | the new argument joins the positionals, or the optionals if one of its names looks optional, and its names are indexed |
| Arguments.ArgumentParser.constructor | subprojects/argparse/include/argparse/argparse.hpp:814-826 | help and version are the only arguments, found by their two names each, and nothing is used yet |
| Arguments.RegisteredKeepsIndexed | subprojects/argparse/include/argparse/argparse.hpp:850-861 | a name is always found exactly if some argument carries it, and then it is the latest such argument; an argument is optional exactly if one of its names looks like an option; the two lists hold all arguments of their kind in order of registration |
| LogDates.DateLengthIsLongest | TempsCtrl.cc:123-124 | at the start of a line the expression takes the longest text that is a date, made of a year, month, day, time of day, and optional sign, fraction and Z in their ranges; and it takes nothing exactly if the line starts with none |
| LogLine.ExtractMatches | TempsCtrl.cc:122-183 | one line: a data point, no data point, or an exception that escapes because a marker is missing |
| LogLine.ExtractFormatted | TempsCtrl.cc:122-183 | what becomes of a well-formed line for all dates and numbers: levels of two digits survive, of three lose the line, longer ones lose three digits |
| LogLine.LineRoundTrip | TempsCtrl.cc:122-183 | a line formatted from any date and numbers gives back exactly these if and only if temperature and delta fit an `int` and the level is below 100 |
| LogLine.ExtractExactly | TempsCtrl.cc:122-183 | for every line: skipped without a date; an exception escapes exactly if a number is missing and those before it can be used; a data point exactly if all can |
| LogLine.MatchFound | TempsCtrl.cc:97-105 | the leftmost match is the number meant if its marker starts nowhere before |
| LogLine.NoMarkerBefore | TempsCtrl.cc:97-105 | and no marker starts in a date, in a status text free of markers, across their borders, or between the numbers |
| LogLine.LevelCut | TempsCtrl.cc:164-168 | what the unsigned wrap of `level.size()-12` leaves of a level |
| LogChunks.LinesChunk2TempsChunk | TempsCtrl.cc:184-193 | the data points of a chunk in order, or the exception of its first bad line |
| LogChunks.CutChunks | TempsCtrl.cc:206-226 | the chunks are the lines in order; all but the last are just large enough, none is empty |
| LogChunks.LinesAreTheFile | TempsCtrl.cc:212 | the lines with a line end behind each are the file, except that the file need not end with one |
| LogChunks.StepKeepsCoherent | TempsCtrl.cc:215-233 | whichever task finishes next or whatever is merged next, finished tasks hold their own result and the merge is ahead by whole chunks |
| LogChunks.EveryScheduleIsSequential | TempsCtrl.cc:227-235 | in every run of tasks and merge that has ended, the merged data, or the exception, is that of one pass over all lines |
| LogChunks.NoDeadlock | TempsCtrl.cc:227-233 | until then a step is always possible, and every step brings the end closer |
| LogChunks.RunTasks | TempsCtrl.cc:215-235 | tasks finished in any order give the sequential result |
| LogChunks.LogFile2Json | TempsCtrl.cc:194-237 | for every file and number of jobs: an error if there are fewer bytes than jobs, else the data of one sequential pass |
| LogChunks.TasksBounded | TempsCtrl.cc:202-226 | there are never more tasks than jobs |
| TempsController.WindowHoldsATick | TempsCtrl.cc:268-282 | from two minutes on, renewal is due at least a minute after an update and at least one timer period before expiry |
| TempsController.EventKeepsAhead | TempsCtrl.cc:338-404 | every tick and request keeps the cache ahead of its expiry, rotations of the log included |
| TempsController.CacheStaysAhead | TempsCtrl.cc:268-404 | no request of any run finds the cache too old if and only if the life expectancy is at least 120 seconds |
| TempsController.TooShortALife | TempsCtrl.cc:385-390 | a concrete run for every shorter life expectancy in which a request finds it too old |
| TempsController.EventRenews | TempsCtrl.cc:338-404 | a tick or request renews the cache exactly if the log file is newer or the data old enough for it, so that they are then no older than the log file, and no request is answered from data that reached the life expectancy |
| TempsController.RunStaysCurrent | TempsCtrl.cc:338-404 | the same for every event of every run, rotations at any time included |
| TempsController.TempsCtrl.IsCacheExpired | TempsCtrl.cc:338-370 | rotated since the last update, or as many minutes old as the life expectancy has |
| TempsController.TempsCtrl.IsCacheNeedingUpdate | TempsCtrl.cc:371-404 | the same with 95 percent of the minutes |
| TempsController.TempsCtrl.OnCacheTimer | TempsCtrl.cc:273-281 | a tick of the timer, as in the runs above; the data are then no older than the log file |
| TempsController.TempsCtrl.HandleAllTempsRequest | TempsCtrl.cc:309-319 | a request, as in the runs above; the data are then no older than the log file |
| TempsController.SaveEventKeeps | TempsCtrl.cc:417-435 | memory and disk agree or a timer is due at most five seconds after the latest change, and every change was saved once or has a timer |
| TempsController.LastValueIsSaved | TempsCtrl.cc:406-435 | after any run, once all timers fired or more than five seconds after the latest change, the disk holds the value last set, and there was one save per change |
| TempsController.SavesAreApart | TempsCtrl.cc:284-289 | a change is saved at once only five seconds after the last save, else by a timer that is due as soon as that distance and a second from the change have passed |
| TempsController.SavesInOneMoment | TempsCtrl.cc:284-289 | timers that are due at one moment all save then, however close |
| TempsController.TwoTimersAtOnce | TempsCtrl.cc:417-435 | and two changes at one moment get such timers |
| TempsController.TempsCtrl.SaveCurrentConfig | TempsCtrl.cc:417-435 | saves at once, or arms a timer if the last save is less than five seconds ago |
| TempsController.TempsCtrl.SetCacheLifeExpectancy | TempsCtrl.cc:406-415 | the new value in both fields, saved or postponed, and the timer's period renewed |
| TempsController.TempsCtrl.OnSaveTimer | TempsCtrl.cc:284-289 | the timer saves what the configuration is by then |

## Left out

- HTTP handlers, JSON values, logging, files, clocks and threads: lines, times and the order of completion are inputs; `std::regex` is modelled by what its four expressions match.
- The timer library is not part of this model: armed timers are taken to fire when due, several save timers to stay armed side by side, and the cache timer to tick with a constant period, so that `CacheStaysAhead` is about a constant life expectancy.
- Rounding of floating-point numbers: 0.005 and 0.95 are exact fractions.
- The D-Bus, ZMQ and Qt code, the socket locker, libconfig, `main` and the control tool.
- Test bodies that throw, and the limit on failed assertions: a throwing body would leave its later subcases unvisited.
- Order of test cases, option parsing, other reporters than XML, `report_query`, stringification, and of the doctest string its comparison, `capacity()` and `operator+=` to itself.
- A signal between a change of the stack of subcases and the callback that reports it: `CrashIsLegal` is about signals while the code of a test body runs.
- The reader and the listener that judge the XML output leave out white space in text, since indentation and line ends are not told from it; the characters written are in the postconditions of the writer.
- `CompoundIsSeparate` is about compounds whose letters can be read separately; what others do is in `ParseExactly`.
- Conversion of values (`std::any`, `scan`), actions that throw, parsing twice, parent parsers, help texts.
- The sorting of an argument's names by length, which matters only for messages.
- `maxjobs` is positive: with 0 the code divides by zero.
