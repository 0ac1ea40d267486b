/** Reading a whole log file: it is cut into chunks of lines, each chunk is parsed by a task of its
  own, and the results are merged in order. */
module LogChunks {
  import opened Common
  import opened LogLine

  // ----- the sequential meaning -----

  predicate Short(lines: seq<string>) {
    forall i :: 0 <= i < |lines| ==> |lines[i]| < SIZE_MODULUS
  }

  /** All data points of some lines, in order; `None` if a line makes the extraction throw. */
  function ParseLines(lines: seq<string>): Option<seq<TempDataPoint>>
    requires Short(lines)
  {
    if lines == [] then Some([])
    else
      match Extract(lines[0])
      case Throws => None
      case Skip => ParseLines(lines[1..])
      case Point(p) => Joined(Some([p]), ParseLines(lines[1..]))
  }

  function Joined(a: Option<seq<TempDataPoint>>, b: Option<seq<TempDataPoint>>): Option<seq<TempDataPoint>> {
    if a.None? || b.None? then None else Some(a.value + b.value)
  }

  lemma {:induction false} ParseAppend(a: seq<string>, b: seq<string>)
    requires Short(a) && Short(b)
    ensures ParseLines(a + b) == Joined(ParseLines(a), ParseLines(b))
  {
    hide Extract;
    if a == [] {
      assert a + b == b;
      assert ParseLines(b).Some? ==> [] + ParseLines(b).value == ParseLines(b).value;
    } else {
      ParseAppend(a[1..], b);
      assert (a + b)[1..] == a[1..] + b;
      JoinedAssociates(Extract(a[0]), ParseLines(a[1..]), ParseLines(b));
    }
  }

  lemma JoinedAssociates(e: Extracted, x: Option<seq<TempDataPoint>>, y: Option<seq<TempDataPoint>>)
    ensures e.Point? ==> Joined(Some([e.point]), Joined(x, y)) == Joined(Joined(Some([e.point]), x), y)
  {
    if e.Point? && x.Some? && y.Some? {
      assert [e.point] + (x.value + y.value) == ([e.point] + x.value) + y.value;
    }
  }

  /** `linesChunk2TempsChunk`. */
  method LinesChunk2TempsChunk(lines: seq<string>) returns (r: Option<seq<TempDataPoint>>)
    requires Short(lines)
    ensures r == ParseLines(lines)
  {
    hide Extract;
    var temps := [];
    for i := 0 to |lines|
      invariant ParseLines(lines[..i]) == Some(temps)
    {
      ParseAppend(lines[..i], [lines[i]]);
      assert lines[..i + 1] == lines[..i] + [lines[i]];
      ParseOne(lines[i]);
      var e := ExtractMatches(lines[i]);
      match e
      case Throws =>
        ParseAppend(lines[..i + 1], lines[i + 1..]);
        assert lines == lines[..i + 1] + lines[i + 1..];
        return None;
      case Skip =>
        assert temps + [] == temps;
      case Point(p) =>
        temps := temps + [p];
    }
    assert lines[..|lines|] == lines;
    return Some(temps);
  }

  lemma ParseOne(line: string)
    requires |line| < SIZE_MODULUS
    ensures ParseLines([line]) ==
      match Extract(line) { case Throws => None case Skip => Some([]) case Point(p) => Some([p]) }
  {
    hide Extract;
    assert [line][1..] == [];
    assert ParseLines([line][1..]) == Some([]);
    if Extract(line).Point? {
      assert [Extract(line).point] + [] == [Extract(line).point];
    }
  }

  // ----- cutting the lines into chunks -----

  function Flatten(chunks: seq<seq<string>>): seq<string> {
    if chunks == [] then [] else Flatten(chunks[..|chunks| - 1]) + chunks[|chunks| - 1]
  }

  /** The bytes of text in some lines, not counting line ends. */
  function TextSize(lines: seq<string>): nat {
    if lines == [] then 0 else TextSize(lines[..|lines| - 1]) + |lines[|lines| - 1]|
  }

  /** Every chunk holds a line; every chunk but the last holds at least `chunkSize` bytes, and none of
    them would without its last line. */
  ghost predicate WellCut(chunks: seq<seq<string>>, chunkSize: nat) {
    && (forall i :: 0 <= i < |chunks| ==> chunks[i] != [] && TextSize(chunks[i][..|chunks[i]| - 1]) < chunkSize)
    && (forall i :: 0 <= i < |chunks| - 1 ==> TextSize(chunks[i]) >= chunkSize)
  }

  /** The loop of `logFile2Json` that launches a task whenever the current chunk is large enough. */
  method CutChunks(lines: seq<string>, chunkSize: nat) returns (tasks: seq<seq<string>>)
    requires chunkSize > 0
    ensures Flatten(tasks) == lines && WellCut(tasks, chunkSize)
  {
    hide Flatten, WellCut, TextSize;
    var currentChunkSize := 0;
    var currentChunk: seq<string> := [];
    tasks := [];
    NoChunks(chunkSize);
    for i := 0 to |lines|
      invariant Flatten(tasks) + currentChunk == lines[..i]
      invariant currentChunkSize == TextSize(currentChunk) < chunkSize
      invariant currentChunk != [] ==> TextSize(currentChunk[..|currentChunk| - 1]) < chunkSize
      invariant WellCut(tasks, chunkSize) && (tasks != [] ==> TextSize(tasks[|tasks| - 1]) >= chunkSize)
    {
      var line := lines[i];
      OneLineMore(currentChunk, line);
      assert lines[..i + 1] == lines[..i] + [line] == Flatten(tasks) + (currentChunk + [line]);
      currentChunkSize := currentChunkSize + |line|;
      currentChunk := currentChunk + [line];
      if currentChunkSize >= chunkSize {
        tasks := Launch(tasks, currentChunk, chunkSize);
        currentChunkSize := 0;
        currentChunk := [];
        assert Flatten(tasks) + currentChunk == Flatten(tasks);
      }
    }
    assert lines[..|lines|] == lines;
    if |currentChunk| > 0 {
      tasks := Launch(tasks, currentChunk, chunkSize);
    } else {
      assert Flatten(tasks) + currentChunk == Flatten(tasks);
    }
  }

  lemma NoChunks(chunkSize: nat)
    ensures Flatten([]) == [] && TextSize([]) == 0 && WellCut([], chunkSize)
  {
  }

  lemma OneLineMore(chunk: seq<string>, line: string)
    ensures TextSize(chunk + [line]) == TextSize(chunk) + |line|
    ensures TextSize((chunk + [line])[..|chunk + [line]| - 1]) == TextSize(chunk)
  {
    assert (chunk + [line])[..|chunk|] == chunk;
  }

  method Launch(tasks: seq<seq<string>>, chunk: seq<string>, chunkSize: nat) returns (r: seq<seq<string>>)
    requires WellCut(tasks, chunkSize) && (tasks != [] ==> TextSize(tasks[|tasks| - 1]) >= chunkSize)
    requires chunk != [] && TextSize(chunk[..|chunk| - 1]) < chunkSize
    ensures r == tasks + [chunk] && WellCut(r, chunkSize) && Flatten(r) == Flatten(tasks) + chunk
  {
    r := tasks + [chunk];
    assert r[..|r| - 1] == tasks;
  }

  // ----- the tasks and the merge, in any order -----

  /** The finished tasks' results, how many of them are merged, and what the merge has so far. */
  datatype Progress = Progress(
    done: seq<Option<Option<seq<TempDataPoint>>>>, merged: nat, temps: seq<TempDataPoint>, failed: bool)

  predicate AllShort(tasks: seq<seq<string>>) {
    forall i :: 0 <= i < |tasks| ==> Short(tasks[i])
  }

  function Begun(tasks: seq<seq<string>>): Progress {
    Progress(seq(|tasks|, _ => None), 0, [], false)
  }

  predicate Ended(tasks: seq<seq<string>>, s: Progress) {
    s.failed || s.merged >= |tasks|
  }

  /** Task i finishes. */
  predicate Finishes(tasks: seq<seq<string>>, s: Progress, s': Progress, i: nat)
    requires AllShort(tasks)
  {
    && i < |tasks| == |s.done| && s.done[i] == None
    && s' == s.(done := s.done[i := Some(ParseLines(tasks[i]))])
  }

  /** The merge takes the next result; `get` throws what the task threw. */
  predicate Merges(tasks: seq<seq<string>>, s: Progress, s': Progress) {
    && !s.failed && s.merged < |tasks| == |s.done| && s.done[s.merged].Some?
    && match s.done[s.merged].value
       case None => s' == s.(failed := true)
       case Some(ps) => s' == s.(merged := s.merged + 1, temps := s.temps + ps)
  }

  ghost predicate Steps(tasks: seq<seq<string>>, s: Progress, s': Progress)
    requires AllShort(tasks)
  {
    Merges(tasks, s, s') || exists i :: Finishes(tasks, s, s', i)
  }

  /** Finished tasks hold their own result, and the merge is ahead by whole chunks. */
  ghost predicate Coherent(tasks: seq<seq<string>>, s: Progress)
    requires AllShort(tasks)
  {
    && |s.done| == |tasks| && s.merged <= |tasks|
    && (forall i :: 0 <= i < |tasks| && s.done[i].Some? ==> s.done[i].value == ParseLines(tasks[i]))
    && Short(Flatten(tasks[..s.merged])) && ParseLines(Flatten(tasks[..s.merged])) == Some(s.temps)
    && (s.failed ==> s.merged < |tasks| && ParseLines(tasks[s.merged]) == None)
  }

  lemma BegunIsCoherent(tasks: seq<seq<string>>)
    requires AllShort(tasks)
    ensures Coherent(tasks, Begun(tasks))
  {
    assert tasks[..0] == [];
  }

  lemma {:induction false} FlattenAppend(a: seq<seq<string>>, b: seq<seq<string>>)
    ensures Flatten(a + b) == Flatten(a) + Flatten(b)
  {
    if b == [] {
      assert a + b == a;
    } else {
      var b' := b[..|b| - 1];
      assert (a + b)[..|a + b| - 1] == a + b';
      FlattenAppend(a, b');
    }
  }

  lemma {:induction false} FlattenShort(tasks: seq<seq<string>>)
    requires AllShort(tasks)
    ensures Short(Flatten(tasks))
  {
    if tasks != [] {
      FlattenShort(tasks[..|tasks| - 1]);
    }
  }

  /** Whichever step comes next, the progress stays coherent. */
  lemma StepKeepsCoherent(tasks: seq<seq<string>>, s: Progress, s': Progress)
    requires AllShort(tasks) && Coherent(tasks, s) && Steps(tasks, s, s')
    ensures Coherent(tasks, s')
  {
    if Merges(tasks, s, s') && s'.merged > s.merged {
      var upTo := tasks[..s.merged];
      assert tasks[..s.merged + 1][..s.merged] == upTo;
      assert Flatten(tasks[..s.merged + 1]) == Flatten(upTo) + tasks[s.merged];
      ParseAppend(Flatten(upTo), tasks[s.merged]);
    }
  }

  ghost predicate IsRun(tasks: seq<seq<string>>, run: seq<Progress>)
    requires AllShort(tasks)
  {
    && run != [] && run[0] == Begun(tasks)
    && forall i :: 0 <= i < |run| - 1 ==> Steps(tasks, run[i], run[i + 1])
  }

  lemma {:induction false} RunIsCoherent(tasks: seq<seq<string>>, run: seq<Progress>, n: nat)
    requires AllShort(tasks) && IsRun(tasks, run) && n < |run|
    ensures Coherent(tasks, run[n])
  {
    if n == 0 {
      BegunIsCoherent(tasks);
    } else {
      RunIsCoherent(tasks, run, n - 1);
      StepKeepsCoherent(tasks, run[n - 1], run[n]);
    }
  }

  /** Whatever the order in which the tasks finish, a run that has ended gives what one pass over all
    lines gives. */
  lemma EveryScheduleIsSequential(tasks: seq<seq<string>>, run: seq<Progress>, n: nat)
    requires AllShort(tasks) && IsRun(tasks, run) && n < |run| && Ended(tasks, run[n])
    ensures Short(Flatten(tasks))
    ensures ParseLines(Flatten(tasks)) == if run[n].failed then None else Some(run[n].temps)
  {
    RunIsCoherent(tasks, run, n);
    FlattenShort(tasks);
    EndedIsSequential(tasks, run[n]);
  }

  lemma EndedIsSequential(tasks: seq<seq<string>>, s: Progress)
    requires AllShort(tasks) && Coherent(tasks, s) && Ended(tasks, s) && Short(Flatten(tasks))
    ensures ParseLines(Flatten(tasks)) == if s.failed then None else Some(s.temps)
  {
    var before := tasks[..s.merged];
    var after := tasks[s.merged..];
    assert tasks == before + after;
    FlattenAppend(before, after);
    if s.failed {
      assert after == [after[0]] + after[1..];
      FlattenAppend([after[0]], after[1..]);
      assert Flatten([after[0]]) == after[0];
      FlattenShort(before);
      FlattenShort(after);
      FlattenShort(after[1..]);
      ParseAppend(after[0], Flatten(after[1..]));
      ParseAppend(Flatten(before), Flatten(after));
    } else {
      assert before == tasks;
    }
  }

  function Remaining(s: Progress): nat
    requires s.merged <= |s.done|
  {
    (|s.done| - s.merged) + (if s.failed then 0 else 1) + Unfinished(s.done)
  }

  function Unfinished(done: seq<Option<Option<seq<TempDataPoint>>>>): nat {
    if done == [] then 0 else (if done[|done| - 1] == None then 1 else 0) + Unfinished(done[..|done| - 1])
  }

  lemma {:induction false} FinishingCounts(done: seq<Option<Option<seq<TempDataPoint>>>>, i: nat,
                                           r: Option<seq<TempDataPoint>>)
    requires i < |done| && done[i] == None
    ensures Unfinished(done[i := Some(r)]) == Unfinished(done) - 1
  {
    var done' := done[i := Some(r)];
    if i < |done| - 1 {
      FinishingCounts(done[..|done| - 1], i, r);
      assert done'[..|done| - 1] == done[..|done| - 1][i := Some(r)];
    } else {
      assert done'[..|done| - 1] == done[..|done| - 1];
    }
  }

  /** The merge never waits for ever: before the end some step is possible, and every step brings the
    end closer. */
  lemma NoDeadlock(tasks: seq<seq<string>>, s: Progress)
    requires AllShort(tasks) && Coherent(tasks, s) && !Ended(tasks, s)
    ensures exists s' :: Steps(tasks, s, s')
    ensures forall s' :: Steps(tasks, s, s') ==> s'.merged <= |s'.done| && Remaining(s') < Remaining(s)
  {
    if s.done[s.merged] == None {
      var s' := s.(done := s.done[s.merged := Some(ParseLines(tasks[s.merged]))]);
      assert Finishes(tasks, s, s', s.merged);
    } else {
      var s' := match s.done[s.merged].value
        case None => s.(failed := true)
        case Some(ps) => s.(merged := s.merged + 1, temps := s.temps + ps);
      assert Merges(tasks, s, s');
    }
    forall s' | Steps(tasks, s, s')
      ensures s'.merged <= |s'.done| && Remaining(s') < Remaining(s)
    {
      if !Merges(tasks, s, s') {
        var i: nat :| Finishes(tasks, s, s', i);
        FinishingCounts(s.done, i, ParseLines(tasks[i]));
      }
    }
  }

  /** All tasks run to the end in some order while their results are merged. */
  method RunTasks(tasks: seq<seq<string>>) returns (r: Option<seq<TempDataPoint>>)
    requires AllShort(tasks)
    ensures Short(Flatten(tasks)) && r == ParseLines(Flatten(tasks))
  {
    hide Extract, ParseLines, Flatten, Remaining, Unfinished;
    var s := Begun(tasks);
    BegunIsCoherent(tasks);
    while !Ended(tasks, s)
      invariant Coherent(tasks, s)
      decreases Remaining(s)
    {
      NoDeadlock(tasks, s);
      ghost var before := s;
      var i :| 0 <= i < |tasks| && (s.done[i] == None || i == s.merged);
      if s.done[i] == None {
        var result := LinesChunk2TempsChunk(tasks[i]);
        s := s.(done := s.done[i := Some(result)]);
        assert Finishes(tasks, before, s, i);
      } else {
        match s.done[i].value {
          case None => s := s.(failed := true);
          case Some(ps) => s := s.(merged := s.merged + 1, temps := s.temps + ps);
        }
        assert Merges(tasks, before, s);
      }
      StepKeepsCoherent(tasks, before, s);
    }
    FlattenShort(tasks);
    EndedIsSequential(tasks, s);
    r := if s.failed then None else Some(s.temps);
  }

  // ----- the whole file -----

  /** The position of the first line end, or the length. */
  function LineEnd(s: string): (n: nat)
    ensures n <= |s| && (n < |s| ==> s[n] == '\n')
  {
    if s == "" || s[0] == '\n' then 0 else 1 + LineEnd(s[1..])
  }

  /** What `getline` yields until it fails: no line behind the last line end. */
  function Lines(s: string): seq<string>
    decreases |s|
  {
    if s == "" then []
    else
      var n := LineEnd(s);
      if n == |s| then [s] else [s[..n]] + Lines(s[n + 1..])
  }

  lemma {:induction false} LineEndIsFirst(s: string)
    ensures '\n' !in s[..LineEnd(s)]
  {
    if s != "" && s[0] != '\n' {
      LineEndIsFirst(s[1..]);
      assert s[..LineEnd(s)] == [s[0]] + s[1..][..LineEnd(s[1..])];
    }
  }

  /** The text of some lines with a line end behind each. */
  function WithLineEnds(lines: seq<string>): string {
    if lines == [] then "" else lines[0] + "\n" + WithLineEnds(lines[1..])
  }

  lemma {:induction false} LinesAreOneByOne(s: string)
    ensures forall l :: l in Lines(s) ==> '\n' !in l
    decreases |s|
  {
    hide LineEnd;
    if s != "" {
      LineEndIsFirst(s);
      var n := LineEnd(s);
      if n < |s| {
        LinesAreOneByOne(s[n + 1..]);
      } else {
        assert s[..n] == s;
      }
    }
  }

  /** The lines are the file: none holds a line end (LinesAreOneByOne), and with one behind each they are
    the file, except that the file need not end with one. */
  lemma {:induction false} LinesAreTheFile(s: string)
    ensures WithLineEnds(Lines(s)) == if s == "" || s[|s| - 1] == '\n' then s else s + "\n"
    decreases |s|
  {
    hide LineEnd, WithLineEnds, Lines;
    NoLines();
    OpenLines(s);
    if s != "" {
      var n := LineEnd(s);
      if n < |s| {
        var rest := s[n + 1..];
        LinesAreTheFile(rest);
        LineInFront(s[..n], Lines(rest));
        FirstLine(s, n);
      } else {
        LastLine(s);
        LineInFront(s, []);
        assert [s] + [] == [s];
        assert s + "\n" + "" == s + "\n";
      }
    }
  }

  lemma OpenLines(s: string)
    ensures Lines(s) ==
      if s == "" then [] else if LineEnd(s) == |s| then [s] else [s[..LineEnd(s)]] + Lines(s[LineEnd(s) + 1..])
  {
  }

  lemma FirstLine(s: string, n: nat)
    requires n < |s| && s[n] == '\n'
    ensures var rest := s[n + 1..];
      && s == s[..n] + "\n" + rest
      && (rest == "" ==> s[|s| - 1] == '\n') && (rest != "" ==> s[|s| - 1] == rest[|rest| - 1])
      && s[..n] + "\n" + (rest + "\n") == s + "\n"
  {
  }

  lemma LastLine(s: string)
    requires s != "" && LineEnd(s) == |s|
    ensures s[|s| - 1] != '\n'
  {
    LineEndIsFirst(s);
    assert s[..|s|] == s;
  }

  lemma NoLines()
    ensures WithLineEnds([]) == ""
  {
  }

  lemma LineInFront(line: string, lines: seq<string>)
    ensures WithLineEnds([line] + lines) == line + "\n" + WithLineEnds(lines)
  {
    assert ([line] + lines)[1..] == lines;
  }

  lemma {:induction false} LinesAreShort(s: string)
    requires |s| < SIZE_MODULUS
    ensures Short(Lines(s))
    decreases |s|
  {
    if s != "" && LineEnd(s) < |s| {
      LinesAreShort(s[LineEnd(s) + 1..]);
    }
  }

  datatype FileResult = Temps(points: seq<TempDataPoint>) | EmptyError | Failed

  /** `logFile2Json`, given the bytes of the file and a positive number of jobs. */
  method LogFile2Json(file: string, maxjobs: nat) returns (r: FileResult, tasks: seq<seq<string>>)
    requires maxjobs > 0 && |file| < SIZE_MODULUS
    ensures |file| < maxjobs ==> r == EmptyError && tasks == []
    ensures |file| >= maxjobs ==>
      && Flatten(tasks) == Lines(file) && WellCut(tasks, |file| / maxjobs) && |tasks| <= maxjobs
      && Short(Lines(file))
      && r == match ParseLines(Lines(file)) { case None => Failed case Some(ps) => Temps(ps) }
  {
    hide Extract, ParseLines, Flatten, WellCut, Lines, TextSize;
    ChunkSizeZero(|file|, maxjobs);
    var chunkSize := |file| / maxjobs;
    if chunkSize == 0 {
      return EmptyError, [];
    }
    LinesAreShort(file);
    var launched := CutChunks(Lines(file), chunkSize);
    TasksBounded(file, maxjobs, launched);
    ChunksAreShort(launched);
    var temps := RunTasks(launched);
    return match temps { case None => Failed case Some(ps) => Temps(ps) }, launched;
  }

  lemma ChunkSizeZero(size: nat, jobs: nat)
    requires jobs > 0
    ensures size / jobs == 0 <==> size < jobs
  {
  }

  lemma {:induction false} ChunksAreShort(tasks: seq<seq<string>>)
    requires Short(Flatten(tasks))
    ensures AllShort(tasks)
  {
    if tasks != [] {
      var init := tasks[..|tasks| - 1];
      var all := Flatten(tasks);
      assert all[..|Flatten(init)|] == Flatten(init);
      assert all[|Flatten(init)|..] == tasks[|tasks| - 1];
      ChunksAreShort(init);
    }
  }

  // ----- how many tasks there are -----

  /** Text and one line end for each of some lines. */
  function FullSize(lines: seq<string>): nat {
    TextSize(lines) + |lines|
  }

  lemma {:induction false} TextSizeAppend(a: seq<string>, b: seq<string>)
    ensures TextSize(a + b) == TextSize(a) + TextSize(b)
  {
    if b == [] {
      assert a + b == a;
    } else {
      assert (a + b)[..|a + b| - 1] == a + b[..|b| - 1];
      TextSizeAppend(a, b[..|b| - 1]);
    }
  }

  /** Lines followed by another one have taken their text and line ends, and left at least a byte. */
  lemma {:induction false} LinesTakeBytes(s: string, k: nat)
    requires k < |Lines(s)|
    ensures FullSize(Lines(s)[..k]) < |s|
    decreases |s|
  {
    if k > 0 {
      var n := LineEnd(s);
      var rest := s[n + 1..];
      LinesTakeBytes(rest, k - 1);
      assert Lines(s)[..k] == [s[..n]] + Lines(rest)[..k - 1];
      TextSizeAppend([s[..n]], Lines(rest)[..k - 1]);
      assert [s[..n]][..0] == [];
    }
  }

  /** All chunks but the last are full, and each has a line end besides. */
  lemma {:induction false} FullChunks(tasks: seq<seq<string>>, chunkSize: nat)
    requires forall i :: 0 <= i < |tasks| ==> tasks[i] != [] && TextSize(tasks[i]) >= chunkSize
    ensures FullSize(Flatten(tasks)) >= |tasks| * (chunkSize + 1)
  {
    if tasks != [] {
      var init := tasks[..|tasks| - 1];
      FullChunks(init, chunkSize);
      TextSizeAppend(Flatten(init), tasks[|tasks| - 1]);
      OneMore(|init|, chunkSize + 1);
    }
  }

  lemma OneMore(n: nat, f: nat)
    ensures (n + 1) * f == n * f + f
  {
  }

  /** There are never more tasks than jobs. */
  lemma TasksBounded(file: string, maxjobs: nat, tasks: seq<seq<string>>)
    requires 0 < maxjobs <= |file|
    requires Flatten(tasks) == Lines(file) && WellCut(tasks, |file| / maxjobs)
    ensures |tasks| <= maxjobs
  {
    var c := |file| / maxjobs;
    if tasks != [] {
      var init := tasks[..|tasks| - 1];
      var last := tasks[|tasks| - 1];
      FullChunks(init, c);
      assert Lines(file)[..|Flatten(init)|] == Flatten(init);
      LinesTakeBytes(file, |Flatten(init)|);
      FewerThanJobs(|init|, c, maxjobs, |file|);
    }
  }

  lemma FewerThanJobs(n: nat, c: nat, jobs: nat, size: nat)
    requires jobs > 0 && c == size / jobs && n * (c + 1) < size
    ensures n < jobs
  {
    assert size < jobs * (c + 1);
    if n >= jobs {
      Multiply(jobs, n, c + 1);
    }
  }

  lemma Multiply(a: nat, b: nat, f: nat)
    requires a <= b
    ensures a * f <= b * f
  {
    assert b * f == a * f + (b - a) * f;
  }
}
