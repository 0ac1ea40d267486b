/** argparse's parser: what one argument consumes, the loop over the tokens, and the checks that
  run after it. Everything is stated on values first; the classes at the end do it in place. */
module Arguments {
  import opened Common
  import opened DecimalLiteral

  /** What a `std::any` holds here: what an action made of a token, a value stored at
    registration, or nothing. */
  datatype Value = Made(text: string, code: int) | Stored(code: int) | Nothing

  datatype Action = Valued(f: string -> Value) | Void

  /** What registration fixes about an argument. `nargs` is -1 for `remaining`. */
  datatype Spec = Spec(
    names: seq<string>, nargs: int, isOptional: bool, isRequired: bool, isRepeatable: bool,
    hasDefault: bool, implicitValue: Value, action: Action)

  /** What parsing changes about an argument. */
  datatype ArgState = ArgState(used: bool, usedName: string, values: seq<Value>)

  datatype Error =
    | DuplicateArgument | OptionalInSequence | TooFewArguments
    | TooManyPositionals | UnknownArgument
    | WrongCount(expected: int, provided: nat) | Required | NoValueProvided

  datatype Result<T> = Ok(value: T) | Err(error: Error)

  const UNUSED := ArgState(false, "", [])

  // ----- one argument -----

  function MapValues(f: string -> Value, tokens: seq<string>): seq<Value> {
    seq(|tokens|, i requires 0 <= i < |tokens| => f(tokens[i]))
  }

  function Resized(values: seq<Value>, n: nat): seq<Value> {
    if n <= |values| then values[..n] else values + seq(n - |values|, _ => Nothing)
  }

  ghost predicate AnyOptional(tokens: seq<string>) {
    exists i :: 0 <= i < |tokens| && !Positional(tokens[i])
  }

  /** The values after an action was applied to a slice of tokens. */
  function Applied(sp: Spec, values: seq<Value>, slice: seq<string>): seq<Value> {
    match sp.action
    case Valued(f) => values + MapValues(f, slice)
    case Void => if !sp.hasDefault && sp.nargs >= 0 then Resized(values, sp.nargs) else values
  }

  /** Feeds an argument from the front of `rest`; the result is the number of tokens taken. */
  ghost function Consumed(sp: Spec, a: ArgState, rest: seq<string>, usedName: string): (r: (ArgState, Result<nat>))
    ensures r.1.Ok? ==> r.1.value <= |rest|
  {
    if !sp.isRepeatable && a.used then (a, Err(DuplicateArgument))
    else
      var b := a.(used := true, usedName := usedName);
      if sp.nargs == 0 then (b.(values := b.values + [sp.implicitValue]), Ok(0))
      else if sp.nargs <= |rest| then
        var n := if sp.nargs < 0 then |rest| else sp.nargs;
        if sp.nargs > 0 && AnyOptional(rest[..n]) then (b, Err(OptionalInSequence))
        else (b.(values := Applied(sp, b.values, rest[..n])), Ok(n))
      else if sp.hasDefault then (b, Ok(0))
      else (b, Err(TooFewArguments))
  }

  /** The check of one argument after parsing. */
  function Checked(sp: Spec, a: ArgState): Result<()> {
    if sp.nargs < 0 then Ok(())
    else if sp.isOptional then
      if a.used && |a.values| != sp.nargs && !sp.isRepeatable && !sp.hasDefault then
        Err(WrongCount(sp.nargs, |a.values|))
      else if !a.used && !sp.hasDefault && sp.isRequired then Err(Required)
      else if a.used && sp.isRequired && a.values == [] then Err(NoValueProvided)
      else Ok(())
    else if |a.values| != sp.nargs && !sp.hasDefault then Err(WrongCount(sp.nargs, |a.values|))
    else Ok(())
  }

  // ----- the whole parser -----

  /** The registered arguments by number; `index` is the map from names to arguments. */
  datatype Config = Config(specs: seq<Spec>, positionals: seq<nat>, optionals: seq<nat>, index: map<string, nat>)

  ghost predicate WellFormed(c: Config) {
    && (forall i :: 0 <= i < |c.positionals| ==> c.positionals[i] < |c.specs|)
    && (forall i :: 0 <= i < |c.optionals| ==> c.optionals[i] < |c.specs|)
    && (forall name :: name in c.index ==> c.index[name] < |c.specs|)
    && |c.optionals| >= 2
  }

  predicate IsHelp(c: Config, h: nat) {
    |c.optionals| >= 1 && h == c.optionals[0]
  }

  predicate IsVersion(c: Config, h: nat) {
    |c.optionals| >= 2 && h == c.optionals[1]
  }

  /** How a parse ends: normally, by an exception, or by printing help or version and exiting. */
  datatype Outcome = Parsed | Failed(error: Error) | HelpShown | VersionShown

  /** Where a token went: it selected an option, or it was in the slice an argument consumed. */
  datatype Step = OptionToken(token: string) | Slice(h: nat, name: string, tokens: seq<string>)

  datatype Run = Run(states: seq<ArgState>, outcome: Outcome, trace: seq<Step>)

  function After(steps: seq<Step>, r: Run): Run {
    r.(trace := steps + r.trace)
  }

  ghost predicate States(c: Config, st: seq<ArgState>) {
    WellFormed(c) && |st| == |c.specs|
  }

  function Single(letter: char): string {
    ['-', letter]
  }

  predicate Compound(t: string) {
    |t| > 1 && t[0] == '-' && t[1] != '-'
  }

  /** The letters of a compound token from the j-th on, each consuming from the tokens behind it;
    on success the number of tokens they took. */
  ghost function Letters(c: Config, st: seq<ArgState>, t: string, j: nat, rest: seq<string>)
    : (r: (seq<ArgState>, Result<nat>, seq<Step>))
    requires States(c, st) && j <= |t|
    ensures |r.0| == |st| && (r.1.Ok? ==> r.1.value <= |rest|)
    decreases |t| - j
  {
    if j == |t| then (st, Ok(0), [])
    else if Single(t[j]) !in c.index then (st, Err(UnknownArgument), [])
    else
      var h := c.index[Single(t[j])];
      var (a, taken) := Consumed(c.specs[h], st[h], rest, Single(t[j]));
      if taken.Err? then (st[h := a], taken, [])
      else
        var n := taken.value;
        var (st', more, steps) := Letters(c, st[h := a], t, j + 1, rest[n..]);
        (st', if more.Ok? then Ok(n + more.value) else more, [Slice(h, Single(t[j]), rest[..n])] + steps)
  }

  function AfterLetters(n: nat, steps: seq<Step>, r: (seq<ArgState>, Result<nat>, seq<Step>))
    : (seq<ArgState>, Result<nat>, seq<Step>)
  {
    (r.0, if r.1.Ok? then Ok(n + r.1.value) else r.1, steps + r.2)
  }

  /** One letter more, as the loop over the letters sees it. */
  lemma LettersStep(c: Config, st: seq<ArgState>, t: string, j: nat, rest: seq<string>, n: nat, steps: seq<Step>)
    requires States(c, st) && j < |t|
    ensures var name := Single(t[j]);
      if name !in c.index then
        var r := Letters(c, st, t, j, rest);
        r.0 == st && r.1 == Err(UnknownArgument)
      else
        var h := c.index[name];
        var (a, taken) := Consumed(c.specs[h], st[h], rest, name);
        if taken.Err? then
          var r := Letters(c, st, t, j, rest);
          r.0 == st[h := a] && r.1 == taken
        else
          AfterLetters(n, steps, Letters(c, st, t, j, rest)) ==
            AfterLetters(n + taken.value, steps + [Slice(h, name, rest[..taken.value])],
                         Letters(c, st[h := a], t, j + 1, rest[taken.value..]))
  {
    hide Consumed;
    if Single(t[j]) in c.index {
      var h := c.index[Single(t[j])];
      var (a, taken) := Consumed(c.specs[h], st[h], rest, Single(t[j]));
      if taken.Ok? {
        var more := Letters(c, st[h := a], t, j + 1, rest[taken.value..]);
        Associates(steps, [Slice(h, Single(t[j]), rest[..taken.value])], more.2);
      }
    }
  }

  lemma AfterNoLetters(r: (seq<ArgState>, Result<nat>, seq<Step>))
    ensures AfterLetters(0, [], r) == r
  {
    assert [] + r.2 == r.2;
  }

  lemma NoLettersLeft(c: Config, st: seq<ArgState>, t: string, rest: seq<string>, n: nat, steps: seq<Step>)
    requires States(c, st)
    ensures AfterLetters(n, steps, Letters(c, st, t, |t|, rest)) == (st, Ok(n), steps)
  {
    assert steps + [] == steps;
  }

  /** One turn of the parse loop: go on behind the tokens taken, or halt. */
  datatype Turn =
    | Go(states: seq<ArgState>, taken: nat, pos: nat, steps: seq<Step>)
    | Halt(states: seq<ArgState>, outcome: Outcome)

  /** A turn that goes on takes a token or serves a positional, so the loop terminates. */
  ghost function OneTurn(c: Config, st: seq<ArgState>, tokens: seq<string>, pos: nat): (turn: Turn)
    requires States(c, st) && pos <= |c.positionals| && tokens != []
    ensures |turn.states| == |st| && (turn.Halt? ==> turn.outcome != Parsed)
    ensures turn.Go? ==>
      && turn.taken <= |tokens| && pos <= turn.pos <= |c.positionals|
      && |tokens| - turn.taken + |c.positionals| - turn.pos < |tokens| + |c.positionals| - pos
  {
    var t := tokens[0];
    if Positional(t) then
      if pos == |c.positionals| then Halt(st, Failed(TooManyPositionals))
      else
        var h := c.positionals[pos];
        var (a, taken) := Consumed(c.specs[h], st[h], tokens, "");
        if taken.Err? then Halt(st[h := a], Failed(taken.error))
        else Go(st[h := a], taken.value, pos + 1, [Slice(h, "", tokens[..taken.value])])
    else if t in c.index then
      var h := c.index[t];
      if IsHelp(c, h) then Halt(st, HelpShown)
      else if IsVersion(c, h) then Halt(st, VersionShown)
      else
        var (a, taken) := Consumed(c.specs[h], st[h], tokens[1..], t);
        if taken.Err? then Halt(st[h := a], Failed(taken.error))
        else Go(st[h := a], 1 + taken.value, pos, [OptionToken(t), Slice(h, t, tokens[1..][..taken.value])])
    else if Compound(t) then
      var (st', taken, steps) := Letters(c, st, t, 1, tokens[1..]);
      if taken.Err? then Halt(st', Failed(taken.error))
      else Go(st', 1 + taken.value, pos, [OptionToken(t)] + steps)
    else Halt(st, Failed(UnknownArgument))
  }

  /** The parse loop from the first of `tokens`, with the first `pos` positionals served. */
  ghost function Parse(c: Config, st: seq<ArgState>, tokens: seq<string>, pos: nat): (r: Run)
    requires States(c, st) && pos <= |c.positionals|
    ensures |r.states| == |st|
    decreases |tokens| + |c.positionals| - pos
  {
    if tokens == [] then Run(st, Parsed, [])
    else
      match OneTurn(c, st, tokens, pos)
      case Halt(st', outcome) => Run(st', outcome, [])
      case Go(st', taken, pos', steps) => After(steps, Parse(c, st', tokens[taken..], pos'))
  }

  // ----- no token is lost, duplicated or reordered -----

  function TokensOfStep(step: Step): seq<string> {
    match step
    case OptionToken(t) => [t]
    case Slice(_, _, ts) => ts
  }

  ghost function TokensOf(trace: seq<Step>): seq<string> {
    if trace == [] then [] else TokensOfStep(trace[0]) + TokensOf(trace[1..])
  }

  /** An argument that collects a value for every token, or one for every time it is used. */
  predicate Collects(sp: Spec) {
    sp.action.Valued? || sp.nargs == 0
  }

  /** What one step amounts to for argument h. */
  ghost function ValuesOfStep(sp: Spec, h: nat, step: Step): seq<Value>
    requires Collects(sp)
  {
    if !Serves(step, h) then []
    else if sp.nargs == 0 then [sp.implicitValue]
    else seq(|step.tokens|, i requires 0 <= i < |step.tokens| => sp.action.f(step.tokens[i]))
  }

  /** What the slices of argument h amount to, in order. */
  ghost function ValuesFrom(sp: Spec, h: nat, trace: seq<Step>): seq<Value>
    requires Collects(sp)
  {
    if trace == [] then [] else ValuesOfStep(sp, h, trace[0]) + ValuesFrom(sp, h, trace[1..])
  }

  lemma {:induction false} TokensOfAppend(a: seq<Step>, b: seq<Step>)
    ensures TokensOf(a + b) == TokensOf(a) + TokensOf(b)
  {
    hide TokensOfStep;
    if a == [] {
      assert a + b == b;
    } else {
      TokensOfAppend(a[1..], b);
      assert (a + b)[1..] == a[1..] + b;
      Associates(TokensOfStep(a[0]), TokensOf(a[1..]), TokensOf(b));
    }
  }

  lemma {:induction false} ValuesFromAppend(sp: Spec, h: nat, a: seq<Step>, b: seq<Step>)
    requires Collects(sp)
    ensures ValuesFrom(sp, h, a + b) == ValuesFrom(sp, h, a) + ValuesFrom(sp, h, b)
  {
    hide ValuesOfStep;
    if a == [] {
      assert a + b == b;
    } else {
      ValuesFromAppend(sp, h, a[1..], b);
      assert (a + b)[1..] == a[1..] + b;
      Associates(ValuesOfStep(sp, h, a[0]), ValuesFrom(sp, h, a[1..]), ValuesFrom(sp, h, b));
    }
  }

  predicate Serves(step: Step, h: nat) {
    step.Slice? && step.h == h
  }

  ghost predicate IsServed(h: nat, trace: seq<Step>) {
    exists i :: 0 <= i < |trace| && Serves(trace[i], h)
  }

  /** The name by which argument h was served last, or `name` if it was not. */
  ghost function LastName(h: nat, trace: seq<Step>, name: string): string {
    if trace == [] then name else LastName(h, trace[1..], if Serves(trace[0], h) then trace[0].name else name)
  }

  lemma {:induction false} LastNameAppend(h: nat, a: seq<Step>, b: seq<Step>, name: string)
    ensures LastName(h, a + b, name) == LastName(h, b, LastName(h, a, name))
  {
    if a == [] {
      assert a + b == b;
    } else {
      LastNameAppend(h, a[1..], b, if Serves(a[0], h) then a[0].name else name);
      assert (a + b)[1..] == a[1..] + b;
    }
  }

  /** An argument is marked used exactly when it was handed a slice, and by the name of the last one. It
    holds what it held before and then, in order, what its slices amount to; with an action that yields
    nothing it holds as many empty values as declared. */
  ghost predicate AccountedFor(sp: Spec, before: ArgState, after: ArgState, h: nat, trace: seq<Step>) {
    && (after.used <==> before.used || IsServed(h, trace))
    && after.usedName == LastName(h, trace, before.usedName)
    && (Collects(sp) ==> after.values == before.values + ValuesFrom(sp, h, trace))
    && (!Collects(sp) ==>
          if IsServed(h, trace) && sp.nargs > 0 && !sp.hasDefault then FilledUp(before.values, after.values, sp.nargs)
          else after.values == before.values)
  }

  /** As many values as declared: those held before, then empty ones. */
  predicate FilledUp(before: seq<Value>, after: seq<Value>, n: nat) {
    |after| == n && forall i :: 0 <= i < n ==> after[i] == if i < |before| then before[i] else Nothing
  }

  ghost predicate Accounted(c: Config, before: seq<ArgState>, after: seq<ArgState>, trace: seq<Step>)
    requires |before| == |after| == |c.specs|
  {
    forall h :: 0 <= h < |c.specs| ==> AccountedFor(c.specs[h], before[h], after[h], h, trace)
  }

  /** One slice adds to the values of its argument what the slice amounts to. */
  lemma ConsumeAddsSlice(sp: Spec, a: ArgState, rest: seq<string>, usedName: string, h: nat)
    ensures var (b, taken) := Consumed(sp, a, rest, usedName);
      taken.Ok? ==> taken.value <= |rest| && AccountedFor(sp, a, b, h, [Slice(h, usedName, rest[..taken.value])])
  {
    var (b, taken) := Consumed(sp, a, rest, usedName);
    if taken.Ok? {
      var step := [Slice(h, usedName, rest[..taken.value])];
      assert Serves(step[0], h);
      assert Collects(sp) ==> ValuesFrom(sp, h, step[1..]) == [];
    }
  }

  lemma NotServed(sp: Spec, a: ArgState, h: nat, step: Step)
    requires !Serves(step, h)
    ensures AccountedFor(sp, a, a, h, [step])
  {
    assert Collects(sp) ==> ValuesFrom(sp, h, [step][1..]) == [];
  }

  lemma AccountedStep(c: Config, st: seq<ArgState>, h: nat, rest: seq<string>, usedName: string)
    requires States(c, st) && h < |st|
    requires Consumed(c.specs[h], st[h], rest, usedName).1.Ok?
    ensures var (a, taken) := Consumed(c.specs[h], st[h], rest, usedName);
      taken.value <= |rest| && Accounted(c, st, st[h := a], [Slice(h, usedName, rest[..taken.value])])
  {
    var (a, taken) := Consumed(c.specs[h], st[h], rest, usedName);
    ConsumeAddsSlice(c.specs[h], st[h], rest, usedName, h);
    var step := Slice(h, usedName, rest[..taken.value]);
    forall g | 0 <= g < |c.specs| && g != h
      ensures AccountedFor(c.specs[g], st[g], st[g], g, [step])
    {
      NotServed(c.specs[g], st[g], g, step);
    }
  }

  lemma AccountedTrans(c: Config, s0: seq<ArgState>, s1: seq<ArgState>, s2: seq<ArgState>, t1: seq<Step>, t2: seq<Step>)
    requires |s0| == |s1| == |s2| == |c.specs|
    requires Accounted(c, s0, s1, t1) && Accounted(c, s1, s2, t2)
    ensures Accounted(c, s0, s2, t1 + t2)
  {
    forall h | 0 <= h < |c.specs|
      ensures AccountedFor(c.specs[h], s0[h], s2[h], h, t1 + t2)
    {
      AccountedForTrans(c.specs[h], s0[h], s1[h], s2[h], h, t1, t2);
    }
  }

  lemma AccountedForTrans(sp: Spec, a0: ArgState, a1: ArgState, a2: ArgState, h: nat, t1: seq<Step>, t2: seq<Step>)
    requires AccountedFor(sp, a0, a1, h, t1) && AccountedFor(sp, a1, a2, h, t2)
    ensures AccountedFor(sp, a0, a2, h, t1 + t2)
  {
    var t := t1 + t2;
    assert forall i :: 0 <= i < |t1| ==> t[i] == t1[i];
    assert forall i :: 0 <= i < |t2| ==> t[|t1| + i] == t2[i];
    assert forall i :: |t1| <= i < |t| ==> t[i] == t2[i - |t1|];
    LastNameAppend(h, t1, t2, a0.usedName);
    if Collects(sp) {
      ValuesFromAppend(sp, h, t1, t2);
    }
  }

  lemma AccountedOption(c: Config, st: seq<ArgState>, t: string)
    requires |st| == |c.specs|
    ensures Accounted(c, st, st, [OptionToken(t)])
  {
    forall h | 0 <= h < |c.specs|
      ensures AccountedFor(c.specs[h], st[h], st[h], h, [OptionToken(t)])
    {
      NotServed(c.specs[h], st[h], h, OptionToken(t));
    }
  }

  lemma AccountedNothing(c: Config, st: seq<ArgState>)
    requires |st| == |c.specs|
    ensures Accounted(c, st, st, [])
  {
  }

  lemma NoTokens()
    ensures TokensOf([]) == []
  {
  }

  lemma TokensOfSlice(h: nat, name: string, tokens: seq<string>, steps: seq<Step>)
    ensures TokensOf([Slice(h, name, tokens)] + steps) == tokens + TokensOf(steps)
  {
    assert ([Slice(h, name, tokens)] + steps)[1..] == steps;
  }

  lemma {:induction false} LettersAccount(c: Config, st: seq<ArgState>, t: string, j: nat, rest: seq<string>)
    requires States(c, st) && j <= |t|
    ensures var (st', taken, steps) := Letters(c, st, t, j, rest);
      taken.Ok? ==> TokensOf(steps) == rest[..taken.value] && Accounted(c, st, st', steps)
    decreases |t| - j
  {
    hide Consumed, ValuesFrom, Accounted, AccountedFor, TokensOf;
    if j == |t| {
      AccountedNothing(c, st);
      NoTokens();
    } else if Single(t[j]) in c.index {
      var h := c.index[Single(t[j])];
      var (a, taken) := Consumed(c.specs[h], st[h], rest, Single(t[j]));
      if taken.Ok? {
        var n := taken.value;
        AccountedStep(c, st, h, rest, Single(t[j]));
        LettersAccount(c, st[h := a], t, j + 1, rest[n..]);
        var (st', more, steps) := Letters(c, st[h := a], t, j + 1, rest[n..]);
        if more.Ok? {
          AccountedTrans(c, st, st[h := a], st', [Slice(h, Single(t[j]), rest[..n])], steps);
          TokensOfSlice(h, Single(t[j]), rest[..n], steps);
          assert rest[..n] + rest[n..][..more.value] == rest[..n + more.value];
        }
      }
    }
  }

  /** A turn that goes on puts each token it takes into exactly one place. */
  ghost predicate TurnAccounted(c: Config, st: seq<ArgState>, tokens: seq<string>, turn: Turn)
    requires |st| == |c.specs| == |turn.states|
  {
    turn.Go? ==>
      && turn.taken <= |tokens|
      && TokensOf(turn.steps) == tokens[..turn.taken]
      && Accounted(c, st, turn.states, turn.steps)
  }

  lemma TurnAccounts(c: Config, st: seq<ArgState>, tokens: seq<string>, pos: nat)
    requires States(c, st) && pos <= |c.positionals| && tokens != []
    ensures TurnAccounted(c, st, tokens, OneTurn(c, st, tokens, pos))
  {
    hide Positional, Consumed, Letters, TokensOf, ValuesFrom, Accounted;
    var t := tokens[0];
    if Positional(t) {
      if OneTurn(c, st, tokens, pos).Go? {
        AccountedStep(c, st, c.positionals[pos], tokens, "");
        OneSlice(OneTurn(c, st, tokens, pos).steps[0]);
      }
    } else if t in c.index {
      OptionAccounts(c, st, tokens, c.index[t]);
    } else if Compound(t) {
      CompoundAccounts(c, st, tokens);
    }
  }

  lemma OptionAccounts(c: Config, st: seq<ArgState>, tokens: seq<string>, h: nat)
    requires States(c, st) && tokens != [] && h < |c.specs|
    ensures var (a, taken) := Consumed(c.specs[h], st[h], tokens[1..], tokens[0]);
      taken.Ok? ==> TurnAccounted(c, st, tokens,
        Go(st[h := a], 1 + taken.value, 0, [OptionToken(tokens[0]), Slice(h, tokens[0], tokens[1..][..taken.value])]))
  {
    hide Consumed, TokensOf, ValuesFrom, Accounted;
    var t := tokens[0];
    var (a, taken) := Consumed(c.specs[h], st[h], tokens[1..], t);
    if taken.Ok? {
      AccountedOption(c, st, t);
      AccountedStep(c, st, h, tokens[1..], t);
      var slice := Slice(h, t, tokens[1..][..taken.value]);
      AccountedTrans(c, st, st, st[h := a], [OptionToken(t)], [slice]);
      assert [OptionToken(t), slice] == [OptionToken(t)] + [slice];
      TokensOfAppend([OptionToken(t)], [slice]);
      OneSlice(OptionToken(t));
      OneSlice(slice);
    }
  }

  lemma CompoundAccounts(c: Config, st: seq<ArgState>, tokens: seq<string>)
    requires States(c, st) && tokens != [] && tokens[0] != ""
    ensures var (st', taken, steps) := Letters(c, st, tokens[0], 1, tokens[1..]);
      taken.Ok? ==> TurnAccounted(c, st, tokens, Go(st', 1 + taken.value, 0, [OptionToken(tokens[0])] + steps))
  {
    hide Letters, TokensOf, ValuesFrom, Accounted;
    var t := tokens[0];
    var (st', taken, steps) := Letters(c, st, t, 1, tokens[1..]);
    if taken.Ok? {
      AccountedOption(c, st, t);
      LettersAccount(c, st, t, 1, tokens[1..]);
      AccountedTrans(c, st, st, st', [OptionToken(t)], steps);
      TokensOfAppend([OptionToken(t)], steps);
      OneSlice(OptionToken(t));
    }
  }

  lemma OneSlice(step: Step)
    ensures TokensOf([step]) == if step.Slice? then step.tokens else [step.token]
  {
    assert TokensOf([step][1..]) == [];
  }

  lemma {:induction false} ParseAccounts(c: Config, st: seq<ArgState>, tokens: seq<string>, pos: nat)
    requires States(c, st) && pos <= |c.positionals|
    ensures var r := Parse(c, st, tokens, pos);
      r.outcome == Parsed ==> TokensOf(r.trace) == tokens && Accounted(c, st, r.states, r.trace)
    decreases |tokens| + |c.positionals| - pos
  {
    if tokens == [] {
      AccountedNothing(c, st);
    } else {
      hide OneTurn, TokensOf, ValuesFrom, Accounted, AccountedFor;
      var turn := OneTurn(c, st, tokens, pos);
      TurnAccounts(c, st, tokens, pos);
      if turn.Go? {
        ParseAccounts(c, turn.states, tokens[turn.taken..], turn.pos);
        var r := Parse(c, turn.states, tokens[turn.taken..], turn.pos);
        if r.outcome == Parsed {
          TracesJoin(c, st, turn.states, r.states, tokens, turn.taken, turn.steps, r.trace);
        }
      }
    }
  }

  lemma TracesJoin(c: Config, s0: seq<ArgState>, s1: seq<ArgState>, s2: seq<ArgState>,
                   tokens: seq<string>, n: nat, t1: seq<Step>, t2: seq<Step>)
    requires |s0| == |s1| == |s2| == |c.specs| && n <= |tokens|
    requires Accounted(c, s0, s1, t1) && Accounted(c, s1, s2, t2)
    requires TokensOf(t1) == tokens[..n] && TokensOf(t2) == tokens[n..]
    ensures TokensOf(t1 + t2) == tokens && Accounted(c, s0, s2, t1 + t2)
  {
    assert tokens[..n] + tokens[n..] == tokens;
    TokensOfAppend(t1, t2);
    AccountedTrans(c, s0, s1, s2, t1, t2);
  }

  // ----- a compound token is its letters written separately -----

  function Singles(t: string, j: nat): (r: seq<string>)
    requires j <= |t|
    ensures |r| == |t| - j
  {
    seq(|t| - j, i requires 0 <= i < |t| - j => Single(t[j + i]))
  }

  /** What makes letter j of a compound token readable as an option of its own: it looks like one, it
    is not the built-in help or version, and unless it is the last one it takes no values. */
  ghost predicate Separable(c: Config, t: string, j: nat)
    requires j < |t| && WellFormed(c)
  {
    && !Positional(Single(t[j]))
    && (Single(t[j]) in c.index ==>
          var h := c.index[Single(t[j])];
          !IsHelp(c, h) && !IsVersion(c, h) && (j + 1 < |t| ==> c.specs[h].nargs == 0))
  }

  /** The parser ends up the same way: same arguments, same outcome. */
  predicate SameEnd(a: Run, b: Run) {
    a.states == b.states && a.outcome == b.outcome
  }

  /** How a parse ends that reads letters first and then the tokens behind them. */
  ghost function EndOfLetters(c: Config, r: (seq<ArgState>, Result<nat>, seq<Step>), rest: seq<string>, pos: nat): Run
    requires States(c, r.0) && pos <= |c.positionals| && (r.1.Ok? ==> r.1.value <= |rest|)
  {
    if r.1.Err? then Run(r.0, Failed(r.1.error), []) else Parse(c, r.0, rest[r.1.value..], pos)
  }

  lemma EndOfLettersStep(c: Config, st: seq<ArgState>, t: string, j: nat, rest: seq<string>, pos: nat)
    requires States(c, st) && pos <= |c.positionals| && j < |t|
    requires Single(t[j]) in c.index
    ensures var h := c.index[Single(t[j])];
      var (a, taken) := Consumed(c.specs[h], st[h], rest, Single(t[j]));
      EndOfLetters(c, Letters(c, st, t, j, rest), rest, pos) ==
        if taken.Err? then Run(st[h := a], Failed(taken.error), [])
        else EndOfLetters(c, Letters(c, st[h := a], t, j + 1, rest[taken.value..]), rest[taken.value..], pos)
  {
    hide Consumed, Parse;
    var h := c.index[Single(t[j])];
    var (a, taken) := Consumed(c.specs[h], st[h], rest, Single(t[j]));
    if taken.Ok? {
      var (st', more, _) := Letters(c, st[h := a], t, j + 1, rest[taken.value..]);
      if more.Ok? {
        assert rest[taken.value..][more.value..] == rest[taken.value + more.value..];
      }
    }
  }

  lemma {:induction false} LettersAreSingles(c: Config, st: seq<ArgState>, t: string, j: nat, rest: seq<string>,
                                             pos: nat)
    requires States(c, st) && pos <= |c.positionals| && 1 <= j <= |t|
    requires forall i :: j <= i < |t| ==> Separable(c, t, i)
    ensures SameEnd(EndOfLetters(c, Letters(c, st, t, j, rest), rest, pos), Parse(c, st, Singles(t, j) + rest, pos))
    decreases |t| - j
  {
    hide Parse, EndOfLetters, Letters, OneTurn, Consumed, Positional, Separable, WellFormed, Singles;
    if j == |t| {
      NoLetterIsNoSingle(c, st, t, rest, pos);
    } else {
      assert Separable(c, t, j);
      if Single(t[j]) in c.index {
        SingleIsLetter(c, st, t, j, rest, pos);
        EndOfLettersStep(c, st, t, j, rest, pos);
        var h := c.index[Single(t[j])];
        var (a, taken) := Consumed(c.specs[h], st[h], rest, Single(t[j]));
        if taken.Ok? {
          LettersAreSingles(c, st[h := a], t, j + 1, rest[taken.value..], pos);
        }
      } else {
        UnknownSingle(c, st, t, j, rest, pos);
        UnknownLetter(c, st, t, j, rest, pos);
      }
    }
  }

  lemma NoLetterIsNoSingle(c: Config, st: seq<ArgState>, t: string, rest: seq<string>, pos: nat)
    requires States(c, st) && pos <= |c.positionals|
    ensures SameEnd(EndOfLetters(c, Letters(c, st, t, |t|, rest), rest, pos), Parse(c, st, Singles(t, |t|) + rest, pos))
  {
    assert Singles(t, |t|) + rest == rest;
  }

  lemma SinglesStep(t: string, j: nat, rest: seq<string>)
    requires j < |t|
    ensures var tokens := Singles(t, j) + rest;
      tokens[0] == Single(t[j]) && tokens[1..] == Singles(t, j + 1) + rest
  {
  }

  /** A letter written separately is consumed like in the compound token. */
  lemma SingleIsLetter(c: Config, st: seq<ArgState>, t: string, j: nat, rest: seq<string>, pos: nat)
    requires States(c, st) && pos <= |c.positionals| && j < |t|
    requires Separable(c, t, j) && Single(t[j]) in c.index
    ensures c.index[Single(t[j])] < |st|
    ensures var h := c.index[Single(t[j])];
      var (a, taken) := Consumed(c.specs[h], st[h], rest, Single(t[j]));
      SameEnd(Parse(c, st, Singles(t, j) + rest, pos),
        if taken.Err? then Run(st[h := a], Failed(taken.error), [])
        else Parse(c, st[h := a], Singles(t, j + 1) + rest[taken.value..], pos))
  {
    hide Consumed, Positional, OneTurn, Parse, Singles;
    SinglesStep(t, j, rest);
    var tokens := Singles(t, j) + rest;
    var h := c.index[Single(t[j])];
    var (a, taken) := Consumed(c.specs[h], st[h], rest, Single(t[j]));
    LastSingle(t, j, rest);
    SingleConsumes(c.specs[h], st[h], tokens[1..], rest, tokens[0], j + 1 == |t|);
    SingleTurn(c, st, tokens, pos, h);
    TurnStep(c, st, tokens, pos, []);
  }

  lemma LastSingle(t: string, j: nat, rest: seq<string>)
    requires j < |t|
    ensures j + 1 == |t| ==> Singles(t, j + 1) + rest == rest
    ensures var tokens := Singles(t, j) + rest;
      && (j + 1 == |t| ==> forall n: nat :: n <= |rest| ==> tokens[1 + n..] == Singles(t, j + 1) + rest[n..])
      && tokens[1..] == Singles(t, j + 1) + rest[0..]
  {
  }

  lemma UnknownLetter(c: Config, st: seq<ArgState>, t: string, j: nat, rest: seq<string>, pos: nat)
    requires States(c, st) && pos <= |c.positionals| && j < |t|
    requires Single(t[j]) !in c.index
    ensures EndOfLetters(c, Letters(c, st, t, j, rest), rest, pos) == Run(st, Failed(UnknownArgument), [])
  {
  }

  lemma SingleTurn(c: Config, st: seq<ArgState>, tokens: seq<string>, pos: nat, h: nat)
    requires States(c, st) && pos <= |c.positionals| && tokens != []
    requires !Positional(tokens[0]) && tokens[0] in c.index && h == c.index[tokens[0]]
    requires !IsHelp(c, h) && !IsVersion(c, h)
    ensures var (a, taken) := Consumed(c.specs[h], st[h], tokens[1..], tokens[0]);
      var turn := OneTurn(c, st, tokens, pos);
      && turn.states == st[h := a]
      && if taken.Err? then turn.Halt? && turn.outcome == Failed(taken.error)
         else turn.Go? && turn.taken == 1 + taken.value && turn.pos == pos
  {
  }

  /** An argument without values does not look at the tokens that follow. */
  lemma SingleConsumes(sp: Spec, a: ArgState, rest: seq<string>, rest': seq<string>, usedName: string, last: bool)
    requires last ==> rest == rest'
    requires !last ==> sp.nargs == 0
    ensures Consumed(sp, a, rest, usedName) == Consumed(sp, a, rest', usedName)
    ensures var taken := Consumed(sp, a, rest, usedName).1;
      taken.Ok? ==> taken.value <= |rest| && (!last ==> taken.value == 0)
  {
  }

  lemma UnknownSingle(c: Config, st: seq<ArgState>, t: string, j: nat, rest: seq<string>, pos: nat)
    requires States(c, st) && pos <= |c.positionals| && j < |t|
    requires Separable(c, t, j) && Single(t[j]) !in c.index
    ensures Parse(c, st, Singles(t, j) + rest, pos) == Run(st, Failed(UnknownArgument), [])
  {
    SinglesStep(t, j, rest);
    assert Single(t[j]) == Single(Single(t[j])[1]);
  }

  /** A compound token starts a parse like its letters do. */
  lemma CompoundTurn(c: Config, st: seq<ArgState>, t: string, rest: seq<string>, pos: nat)
    requires States(c, st) && pos <= |c.positionals|
    requires Compound(t) && t !in c.index && !Positional(t)
    ensures SameEnd(Parse(c, st, [t] + rest, pos), EndOfLetters(c, Letters(c, st, t, 1, rest), rest, pos))
  {
    hide Letters, Positional, Parse;
    var tokens := [t] + rest;
    assert tokens[0] == t && tokens[1..] == rest;
    var (_, taken, _) := Letters(c, st, t, 1, rest);
    if taken.Ok? {
      assert tokens[1 + taken.value..] == rest[taken.value..];
    }
    TurnStep(c, st, tokens, pos, []);
  }

  /** A compound token that no argument is named by, and whose letters can be read separately, leaves
    the parser in the same state, or raises the same error, as its letters written one by one,
    whatever follows. */
  lemma CompoundIsSeparate(c: Config, st: seq<ArgState>, t: string, rest: seq<string>, pos: nat)
    requires States(c, st) && pos <= |c.positionals|
    requires Compound(t) && t !in c.index
    requires forall j :: 1 <= j < |t| ==> Separable(c, t, j)
    ensures SameEnd(Parse(c, st, [t] + rest, pos), Parse(c, st, Singles(t, 1) + rest, pos))
  {
    hide Parse, EndOfLetters, Letters, Positional, Separable, Singles;
    LettersAreSingles(c, st, t, 1, rest, pos);
    SeparableLooksOptional(c, t);
    CompoundTurn(c, st, t, rest, pos);
  }

  lemma SeparableLooksOptional(c: Config, t: string)
    requires WellFormed(c) && Compound(t)
    requires forall j :: 1 <= j < |t| ==> Separable(c, t, j)
    ensures !Positional(t)
  {
    forall j | 1 <= j < |t| ensures !IsDigit(t[j]) {
      assert Separable(c, t, j);
      assert Single(t[j])[1..] == [t[j]];
      FirstCharacter([t[j]]);
    }
    NoNumberWithoutDigits(t[1..]);
  }

  // ----- every token goes to the argument it is meant for, up to where the parse ends -----

  /** Whether an argument that may still be used takes exactly n tokens off the front of `rest`. */
  ghost predicate Takes(sp: Spec, n: nat, rest: seq<string>) {
    if sp.nargs == 0 then n == 0
    else if sp.nargs < 0 then n == |rest|
    else if sp.nargs <= |rest| then n == sp.nargs && !AnyOptional(rest[..n])
    else sp.hasDefault && n == 0
  }

  /** Why an argument takes nothing at all. */
  ghost predicate Refuses(sp: Spec, used: bool, rest: seq<string>, e: Error) {
    match e
    case DuplicateArgument => used && !sp.isRepeatable
    case OptionalInSequence => (!used || sp.isRepeatable) && 0 < sp.nargs <= |rest| && AnyOptional(rest[..sp.nargs])
    case TooFewArguments => (!used || sp.isRepeatable) && sp.nargs > |rest| && !sp.hasDefault
    case _ => false
  }

  /** The names an option token stands for: itself, or a dash and each letter of a compound token. */
  ghost function NamesIn(c: Config, t: string): seq<string> {
    if t in c.index then [t]
    else if t == "" then []
    else seq(|t| - 1, i requires 0 <= i < |t| - 1 => "-" + [t[i + 1]])
  }

  /** A dash and some letters, the first of which is no dash. */
  ghost predicate DashAndLetters(t: string) {
    exists letters :: letters != "" && letters[0] != '-' && t == "-" + letters
  }

  lemma CompoundExactly(c: Config, t: string)
    ensures Compound(t) <==> DashAndLetters(t)
    ensures t != "" && t !in c.index ==> NamesIn(c, t) == Singles(t, 1)
  {
    if Compound(t) {
      assert t == "-" + t[1..];
    }
    if t != "" && t !in c.index {
      var singles := Singles(t, 1);
      assert forall i :: 0 <= i < |singles| ==> singles[i] == "-" + [t[i + 1]];
    }
  }

  /** The argument whose turn it is when `names` are still to be served, the first `pos` positional
    arguments were, and `rest` are the tokens ahead. */
  ghost function Due(c: Config, names: seq<string>, pos: nat, rest: seq<string>): Option<nat> {
    if names != [] then
      if names[0] in c.index then Some(c.index[names[0]]) else None
    else if rest != [] && Positional(rest[0]) && pos < |c.positionals| then Some(c.positionals[pos])
    else None
  }

  /** A token that selects an option, or some in a compound. */
  ghost predicate Selects(c: Config, t: string) {
    && !Positional(t)
    && if t in c.index then |c.optionals| >= 2 && c.index[t] !in c.optionals[..2] else DashAndLetters(t)
  }

  /** What makes a parse end here, and how. */
  ghost predicate Ends(c: Config, used: set<nat>, names: seq<string>, pos: nat, rest: seq<string>, o: Outcome) {
    match o
    case Parsed => names == [] && rest == []
    case HelpShown =>
      && names == [] && rest != [] && !Positional(rest[0]) && rest[0] in c.index
      && c.optionals != [] && c.index[rest[0]] == c.optionals[0]
    case VersionShown =>
      && names == [] && rest != [] && !Positional(rest[0]) && rest[0] in c.index
      && |c.optionals| >= 2 && c.index[rest[0]] == c.optionals[1] != c.optionals[0]
    case Failed(TooManyPositionals) => names == [] && rest != [] && Positional(rest[0]) && pos >= |c.positionals|
    case Failed(UnknownArgument) =>
      if names != [] then names[0] !in c.index
      else rest != [] && !Positional(rest[0]) && rest[0] !in c.index && !DashAndLetters(rest[0])
    case Failed(e) =>
      var h := Due(c, names, pos, rest);
      h.Some? && h.value < |c.specs| && Refuses(c.specs[h.value], h.value in used, rest, e)
  }

  ghost function TokensAhead(trace: seq<Step>, rest: seq<string>): seq<string> {
    TokensOf(trace) + rest
  }

  /** What a parse is meant to do, read off its trace. The names of an option token are served one
    by one by the arguments they name; between option tokens the positional arguments are served in
    their order, each where a positional token comes next. `names` are still to be served, and the
    first `pos` positional arguments and the arguments in `used` were. In front of `rest` the parse ends
    as `o` says. */
  ghost predicate Routed(c: Config, used: set<nat>, names: seq<string>, pos: nat, trace: seq<Step>,
                         rest: seq<string>, o: Outcome)
    decreases |trace|
  {
    if trace == [] then Ends(c, used, names, pos, rest, o)
    else match trace[0]
      case Slice(h, name, ts) =>
        && MayTake(c, used, names, pos, h, |ts|, TokensAhead(trace, rest))
        && name == (if names == [] then "" else names[0])
        && Routed(c, used + {h}, if names == [] then [] else names[1..], if names == [] then pos + 1 else pos,
                  trace[1..], rest, o)
      case OptionToken(t) =>
        names == [] && Selects(c, t) && Routed(c, used, NamesIn(c, t), pos, trace[1..], rest, o)
  }

  ghost predicate MayTake(c: Config, used: set<nat>, names: seq<string>, pos: nat, h: nat, n: nat, ahead: seq<string>) {
    && Due(c, names, pos, ahead) == Some(h) && h < |c.specs|
    && (c.specs[h].isRepeatable || h !in used)
    && Takes(c.specs[h], n, ahead)
  }

  /** The tokens up to `rest` can be sent where they are meant to go, and then the parse ends as `o` says. */
  ghost predicate Routing(c: Config, used: set<nat>, tokens: seq<string>, pos: nat, trace: seq<Step>,
                          rest: seq<string>, o: Outcome)
  {
    TokensAhead(trace, rest) == tokens && Routed(c, used, [], pos, trace, rest, o)
  }

  ghost function UsedIn(st: seq<ArgState>): set<nat> {
    set h: nat | h < |st| && st[h].used
  }

  lemma ConsumedTakes(sp: Spec, a: ArgState, rest: seq<string>, usedName: string)
    ensures var (b, taken) := Consumed(sp, a, rest, usedName);
      && (forall n: nat :: taken == Ok(n) <==> (sp.isRepeatable || !a.used) && Takes(sp, n, rest))
      && (forall e :: taken == Err(e) <==> Refuses(sp, a.used, rest, e))
      && (taken.Ok? ==> b.used)
  {
  }

  /** One more slice in front of a trace. */
  lemma SliceStep(c: Config, st: seq<ArgState>, names: seq<string>, pos: nat, h: nat, ahead: seq<string>,
                  usedName: string, n: nat, tail: seq<Step>, rest: seq<string>, o: Outcome)
    requires States(c, st) && n <= |ahead| && TokensAhead(tail, rest) == ahead[n..]
    requires Due(c, names, pos, ahead) == Some(h) && h < |st| && usedName == if names == [] then "" else names[0]
    ensures var (a, taken) := Consumed(c.specs[h], st[h], ahead, usedName);
      var trace := [Slice(h, usedName, ahead[..n])] + tail;
      && TokensAhead(trace, rest) == ahead
      && (taken == Ok(n) ==>
            (Routed(c, UsedIn(st), names, pos, trace, rest, o) <==>
             Routed(c, UsedIn(st[h := a]), if names == [] then [] else names[1..], if names == [] then pos + 1 else pos,
                    tail, rest, o)))
      && (Routed(c, UsedIn(st), names, pos, trace, rest, o) ==> taken == Ok(n))
  {
    ConsumedTakes(c.specs[h], st[h], ahead, usedName);
    TokensOfSlice(h, usedName, ahead[..n], tail);
    Associates(ahead[..n], TokensOf(tail), rest);
    assert ahead[..n] + ahead[n..] == ahead;
    assert TokensOf([Slice(h, usedName, ahead[..n])] + tail) + rest == ahead[..n] + (TokensOf(tail) + rest);
    var trace := [Slice(h, usedName, ahead[..n])] + tail;
    assert trace[1..] == tail;
    hide Consumed, TokensOf, Takes, Refuses, Due;
    var (a, taken) := Consumed(c.specs[h], st[h], ahead, usedName);
    if taken.Ok? {
      assert forall g: nat :: g < |st| && g != h ==> st[h := a][g] == st[g];
      assert UsedIn(st[h := a]) == UsedIn(st) + {h};
    }
  }

  lemma OptionStep(c: Config, used: set<nat>, pos: nat, t: string, tail: seq<Step>, rest: seq<string>, o: Outcome)
    ensures var trace := [OptionToken(t)] + tail;
      && TokensAhead(trace, rest) == [t] + TokensAhead(tail, rest)
      && (Routed(c, used, [], pos, trace, rest, o) <==>
            Selects(c, t) && Routed(c, used, NamesIn(c, t), pos, tail, rest, o))
  {
    assert ([OptionToken(t)] + tail)[1..] == tail;
    Associates([t], TokensOf(tail), rest);
  }

  /** An argument that refuses ends the parse. */
  lemma RefusalEnds(c: Config, st: seq<ArgState>, names: seq<string>, pos: nat, h: nat, rest: seq<string>,
                    usedName: string)
    requires States(c, st) && Due(c, names, pos, rest) == Some(h) && h < |st|
    ensures var taken := Consumed(c.specs[h], st[h], rest, usedName).1;
      forall o :: Ends(c, UsedIn(st), names, pos, rest, o) <==> taken.Err? && o == Failed(taken.error)
  {
    ConsumedTakes(c.specs[h], st[h], rest, usedName);
    hide Consumed, Takes;
  }

  lemma SinglesRest(t: string, j: nat)
    requires j < |t|
    ensures Singles(t, j) != [] && Singles(t, j)[0] == Single(t[j]) && Singles(t, j)[1..] == Singles(t, j + 1)
  {
  }

  /** The letters of a compound token are routed, up to the end of the parse if one of them fails. */
  lemma {:induction false} LettersRoute(c: Config, st: seq<ArgState>, t: string, j: nat, ahead: seq<string>, pos: nat,
                                        tail: seq<Step>, rest: seq<string>, o: Outcome)
    returns (trace: seq<Step>, end: seq<string>)
    requires States(c, st) && 1 <= j <= |t|
    requires var (st', taken, _) := Letters(c, st, t, j, ahead);
      if taken.Err? then o == Failed(taken.error)
      else TokensAhead(tail, rest) == ahead[taken.value..] && Routed(c, UsedIn(st'), [], pos, tail, rest, o)
    ensures var (_, taken, steps) := Letters(c, st, t, j, ahead);
      taken.Ok? ==> trace == steps + tail && end == rest
    ensures TokensAhead(trace, end) == ahead && Routed(c, UsedIn(st), Singles(t, j), pos, trace, end, o)
    decreases |t| - j
  {
    hide Consumed, TokensAhead, Takes, UsedIn, Routed, Singles;
    if j == |t| {
      assert Singles(t, j) == [] && [] + tail == tail;
      trace, end := tail, rest;
    } else {
      SinglesRest(t, j);
      var name := Single(t[j]);
      if name !in c.index {
        trace, end := [], ahead;
        EndsHere(c, UsedIn(st), Singles(t, j), pos, ahead, o);
      } else {
        var h := c.index[name];
        var (a, taken) := Consumed(c.specs[h], st[h], ahead, name);
        if taken.Err? {
          trace, end := [], ahead;
          RefusalEnds(c, st, Singles(t, j), pos, h, ahead, name);
          EndsHere(c, UsedIn(st), Singles(t, j), pos, ahead, o);
        } else {
          var n := taken.value;
          var (_, more, later) := Letters(c, st[h := a], t, j + 1, ahead[n..]);
          assert more.Ok? ==> ahead[n..][more.value..] == ahead[n + more.value..];
          var behind;
          behind, end := LettersRoute(c, st[h := a], t, j + 1, ahead[n..], pos, tail, rest, o);
          trace := [Slice(h, name, ahead[..n])] + behind;
          Associates([Slice(h, name, ahead[..n])], later, tail);
          SliceStep(c, st, Singles(t, j), pos, h, ahead, name, n, behind, end, o);
        }
      }
    }
  }

  lemma EndsHere(c: Config, used: set<nat>, names: seq<string>, pos: nat, rest: seq<string>, o: Outcome)
    ensures TokensAhead([], rest) == rest
    ensures Routed(c, used, names, pos, [], rest, o) <==> Ends(c, used, names, pos, rest, o)
  {
  }

  /** However a parse ends, it routes the tokens up to there as it is meant to. */
  lemma {:induction false} ParseRoutes(c: Config, st: seq<ArgState>, tokens: seq<string>, pos: nat)
    returns (trace: seq<Step>, rest: seq<string>)
    requires States(c, st) && pos <= |c.positionals|
    ensures var r := Parse(c, st, tokens, pos);
      && Routing(c, UsedIn(st), tokens, pos, trace, rest, r.outcome)
      && (r.outcome == Parsed ==> rest == [] && trace == r.trace)
    decreases |tokens| + |c.positionals| - pos
  {
    hide OneTurn, TokensAhead, Routed, UsedIn;
    if tokens == [] {
      trace, rest := [], [];
      EndsHere(c, UsedIn(st), [], pos, [], Parsed);
    } else {
      match OneTurn(c, st, tokens, pos)
      case Halt(_, o) =>
        trace, rest := TurnRoutes(c, st, tokens, pos, [], [], o);
      case Go(st', taken, pos', steps) =>
        trace, rest := ParseRoutes(c, st', tokens[taken..], pos');
        trace, rest := TurnRoutes(c, st, tokens, pos, trace, rest, Parse(c, st', tokens[taken..], pos').outcome);
    }
  }

  /** What a turn does agrees with a routing that goes on with `tail`, if it goes on. */
  ghost predicate TurnAgrees(c: Config, turn: Turn, tokens: seq<string>, tail: seq<Step>, rest: seq<string>,
                             o: Outcome)
  {
    match turn
    case Halt(_, halted) => o == halted
    case Go(st', taken, pos', steps) =>
      && taken <= |tokens| && TokensAhead(tail, rest) == tokens[taken..]
      && Routed(c, UsedIn(st'), [], pos', tail, rest, o)
  }

  lemma TurnRoutes(c: Config, st: seq<ArgState>, tokens: seq<string>, pos: nat,
                   tail: seq<Step>, rest: seq<string>, o: Outcome)
    returns (trace: seq<Step>, end: seq<string>)
    requires States(c, st) && pos <= |c.positionals| && tokens != []
    requires TurnAgrees(c, OneTurn(c, st, tokens, pos), tokens, tail, rest, o)
    ensures Routing(c, UsedIn(st), tokens, pos, trace, end, o)
    ensures var turn := OneTurn(c, st, tokens, pos);
      turn.Go? ==> trace == turn.steps + tail && end == rest
  {
    hide Positional, Consumed, TokensAhead, Takes, UsedIn, Letters, Singles, Routed;
    var t := tokens[0];
    CompoundExactly(c, t);
    var turn := OneTurn(c, st, tokens, pos);
    EndsHere(c, UsedIn(st), [], pos, tokens, o);
    trace, end := [], tokens;
    if Positional(t) {
      if pos < |c.positionals| {
        var h := c.positionals[pos];
        RefusalEnds(c, st, [], pos, h, tokens, "");
        if turn.Go? {
          SliceStep(c, st, [], pos, h, tokens, "", turn.taken, tail, rest, o);
          trace, end := turn.steps + tail, rest;
        }
      }
    } else if t in c.index {
      if !IsHelp(c, c.index[t]) && !IsVersion(c, c.index[t]) {
        trace, end := OptionRoutes(c, st, tokens, pos, tail, rest, o);
      }
    } else if Compound(t) {
      var behind;
      behind, end := LettersRoute(c, st, t, 1, tokens[1..], pos, tail, rest, o);
      OptionStep(c, UsedIn(st), pos, t, behind, end, o);
      trace := [OptionToken(t)] + behind;
      if turn.Go? {
        Associates([OptionToken(t)], Letters(c, st, t, 1, tokens[1..]).2, tail);
      }
    }
  }

  lemma OptionRoutes(c: Config, st: seq<ArgState>, tokens: seq<string>, pos: nat,
                     tail: seq<Step>, rest: seq<string>, o: Outcome)
    returns (trace: seq<Step>, end: seq<string>)
    requires States(c, st) && tokens != [] && tokens[0] in c.index && Selects(c, tokens[0])
    requires var h := c.index[tokens[0]];
      var (a, taken) := Consumed(c.specs[h], st[h], tokens[1..], tokens[0]);
      if taken.Err? then o == Failed(taken.error)
      else
        && TokensAhead(tail, rest) == tokens[1 + taken.value..]
        && Routed(c, UsedIn(st[h := a]), [], pos, tail, rest, o)
    ensures Routing(c, UsedIn(st), tokens, pos, trace, end, o)
    ensures var h := c.index[tokens[0]];
      var taken := Consumed(c.specs[h], st[h], tokens[1..], tokens[0]).1;
      taken.Ok? ==>
        trace == [OptionToken(tokens[0]), Slice(h, tokens[0], tokens[1..][..taken.value])] + tail && end == rest
  {
    hide Consumed, TokensAhead, Takes, UsedIn, Routed;
    var t, ahead := tokens[0], tokens[1..];
    var h := c.index[t];
    var (a, taken) := Consumed(c.specs[h], st[h], ahead, t);
    var behind;
    if taken.Err? {
      behind, end := [], ahead;
      RefusalEnds(c, st, [t], pos, h, ahead, t);
      EndsHere(c, UsedIn(st), [t], pos, ahead, o);
    } else {
      behind, end := [Slice(h, t, ahead[..taken.value])] + tail, rest;
      assert ahead[taken.value..] == tokens[1 + taken.value..];
      assert [t][1..] == [];
      SliceStep(c, st, [t], pos, h, ahead, t, taken.value, tail, rest, o);
      assert [OptionToken(t), Slice(h, t, ahead[..taken.value])] + tail == [OptionToken(t)] + behind;
    }
    assert [t] + ahead == tokens;
    OptionStep(c, UsedIn(st), pos, t, behind, end, o);
    trace := [OptionToken(t)] + behind;
  }

  lemma SliceInFront(trace: seq<Step>, rest: seq<string>)
    requires trace != [] && trace[0].Slice?
    ensures var n, ahead := |trace[0].tokens|, TokensAhead(trace, rest);
      && n <= |ahead| && ahead[..n] == trace[0].tokens && ahead[n..] == TokensAhead(trace[1..], rest)
      && trace == [Slice(trace[0].h, trace[0].name, ahead[..n])] + trace[1..]
  {
    hide TokensOf;
    TokensOfSlice(trace[0].h, trace[0].name, trace[0].tokens, trace[1..]);
    assert trace == [Slice(trace[0].h, trace[0].name, trace[0].tokens)] + trace[1..];
  }

  lemma {:induction false} RoutedLetters(c: Config, st: seq<ArgState>, t: string, j: nat, pos: nat,
                                         trace: seq<Step>, rest: seq<string>, o: Outcome)
    returns (tail: seq<Step>)
    requires States(c, st) && 1 <= j <= |t| && Routed(c, UsedIn(st), Singles(t, j), pos, trace, rest, o)
    ensures var (st', taken, steps) := Letters(c, st, t, j, TokensAhead(trace, rest));
      if taken.Err? then o == Failed(taken.error)
      else
        && trace == steps + tail
        && TokensAhead(tail, rest) == TokensAhead(trace, rest)[taken.value..]
        && Routed(c, UsedIn(st'), [], pos, tail, rest, o)
    decreases |t| - j
  {
    hide Consumed, TokensAhead, Takes, UsedIn, Routed, Singles;
    var ahead := TokensAhead(trace, rest);
    tail := trace;
    if j == |t| {
      assert Singles(t, j) == [];
    } else {
      SinglesRest(t, j);
      EndsHere(c, UsedIn(st), Singles(t, j), pos, rest, o);
      var name := Single(t[j]);
      var h, n := NextSlice(c, UsedIn(st), Singles(t, j), pos, trace, rest, o);
      if trace == [] {
        if name in c.index {
          RefusalEnds(c, st, Singles(t, j), pos, c.index[name], ahead, name);
        }
      } else {
        SliceInFront(trace, rest);
        SliceStep(c, st, Singles(t, j), pos, h, ahead, name, n, trace[1..], rest, o);
        var (a, taken) := Consumed(c.specs[h], st[h], ahead, name);
        tail := RoutedLetters(c, st[h := a], t, j + 1, pos, trace[1..], rest, o);
        var (_, more, later) := Letters(c, st[h := a], t, j + 1, ahead[n..]);
        Associates([Slice(h, name, ahead[..n])], later, tail);
        assert more.Ok? ==> ahead[n..][more.value..] == ahead[n + more.value..];
      }
    }
  }

  /** While names are still to be served, a slice comes next. */
  lemma NextSlice(c: Config, used: set<nat>, names: seq<string>, pos: nat, trace: seq<Step>, rest: seq<string>,
                  o: Outcome)
    returns (h: nat, n: nat)
    requires Routed(c, used, names, pos, trace, rest, o) && names != []
    ensures trace != [] ==>
      && trace[0].Slice? && names[0] in c.index && h == trace[0].h == c.index[names[0]] && n == |trace[0].tokens|
      && trace[0].name == names[0]
      && Due(c, names, pos, TokensAhead(trace, rest)) == Some(h)
  {
    h, n := 0, 0;
    if trace != [] {
      h, n := trace[0].h, |trace[0].tokens|;
    }
  }

  /** Where a parse ends without another step, its next turn halts in the same way. */
  lemma EndHalts(c: Config, st: seq<ArgState>, tokens: seq<string>, pos: nat, o: Outcome)
    requires States(c, st) && pos <= |c.positionals| && tokens != []
    requires Ends(c, UsedIn(st), [], pos, tokens, o)
    ensures var turn := OneTurn(c, st, tokens, pos);
      turn.Halt? && turn.outcome == o
  {
    hide Consumed, Positional, Letters, UsedIn;
    CompoundExactly(c, tokens[0]);
    if Positional(tokens[0]) && pos < |c.positionals| {
      RefusalEnds(c, st, [], pos, c.positionals[pos], tokens, "");
    }
  }

  lemma RoutedTurn(c: Config, st: seq<ArgState>, pos: nat, trace: seq<Step>, rest: seq<string>, o: Outcome)
    returns (tail: seq<Step>)
    requires States(c, st) && pos <= |c.positionals| && TokensAhead(trace, rest) != []
    requires Routed(c, UsedIn(st), [], pos, trace, rest, o)
    ensures var tokens := TokensAhead(trace, rest);
      var turn := OneTurn(c, st, tokens, pos);
      TurnAgrees(c, turn, tokens, tail, rest, o) && (turn.Go? ==> trace == turn.steps + tail)
  {
    hide Consumed, TokensAhead, Takes, UsedIn, Letters, Singles, Positional;
    var tokens := TokensAhead(trace, rest);
    tail := trace;
    if trace == [] {
      EndsHere(c, UsedIn(st), [], pos, rest, o);
      EndHalts(c, st, tokens, pos, o);
    } else if trace[0].Slice? {
      tail := trace[1..];
      SliceInFront(trace, rest);
      SliceStep(c, st, [], pos, c.positionals[pos], tokens, "", |trace[0].tokens|, tail, rest, o);
    } else {
      tail := RoutedOption(c, st, pos, trace, rest, o);
    }
  }

  lemma RoutedOption(c: Config, st: seq<ArgState>, pos: nat, trace: seq<Step>, rest: seq<string>, o: Outcome)
    returns (tail: seq<Step>)
    requires States(c, st) && pos <= |c.positionals| && trace != [] && trace[0].OptionToken?
    requires Routed(c, UsedIn(st), [], pos, trace, rest, o)
    ensures TokensAhead(trace, rest) != []
    ensures var tokens := TokensAhead(trace, rest);
      var turn := OneTurn(c, st, tokens, pos);
      TurnAgrees(c, turn, tokens, tail, rest, o) && (turn.Go? ==> trace == turn.steps + tail)
  {
    hide Consumed, TokensAhead, Takes, UsedIn, Letters, Singles, Positional, Routed;
    var t, behind := trace[0].token, trace[1..];
    assert trace == [OptionToken(t)] + behind;
    OptionStep(c, UsedIn(st), pos, t, behind, rest, o);
    var tokens, ahead := TokensAhead(trace, rest), TokensAhead(behind, rest);
    assert tokens[0] == t && tokens[1..] == ahead;
    CompoundExactly(c, t);
    if t in c.index {
      tail := RoutedName(c, st, t, pos, behind, rest, o);
      var h := c.index[t];
      var (a, taken) := Consumed(c.specs[h], st[h], ahead, t);
      if taken.Ok? {
        assert trace == [OptionToken(t), Slice(h, t, ahead[..taken.value])] + tail;
        assert tokens[1 + taken.value..] == ahead[taken.value..];
      }
    } else {
      tail := RoutedLetters(c, st, t, 1, pos, behind, rest, o);
      var (_, taken, steps) := Letters(c, st, t, 1, ahead);
      if taken.Ok? {
        Associates([OptionToken(t)], steps, tail);
        assert tokens[1 + taken.value..] == ahead[taken.value..];
      }
    }
  }

  lemma RoutedName(c: Config, st: seq<ArgState>, t: string, pos: nat, trace: seq<Step>, rest: seq<string>, o: Outcome)
    returns (tail: seq<Step>)
    requires States(c, st) && t in c.index && Routed(c, UsedIn(st), [t], pos, trace, rest, o)
    ensures var h, ahead := c.index[t], TokensAhead(trace, rest);
      var (a, taken) := Consumed(c.specs[h], st[h], ahead, t);
      if taken.Err? then o == Failed(taken.error)
      else
        && trace == [Slice(h, t, ahead[..taken.value])] + tail
        && TokensAhead(tail, rest) == ahead[taken.value..]
        && Routed(c, UsedIn(st[h := a]), [], pos, tail, rest, o)
  {
    hide Consumed, TokensAhead, Takes, UsedIn, Routed;
    var h, ahead := c.index[t], TokensAhead(trace, rest);
    EndsHere(c, UsedIn(st), [t], pos, rest, o);
    RefusalEnds(c, st, [t], pos, h, ahead, t);
    var g, n := NextSlice(c, UsedIn(st), [t], pos, trace, rest, o);
    tail := trace;
    if trace != [] {
      tail := trace[1..];
      SliceInFront(trace, rest);
      assert [t][1..] == [];
      SliceStep(c, st, [t], pos, h, ahead, t, n, tail, rest, o);
    }
  }

  /** Without tokens ahead nothing can be routed. */
  lemma NothingToRoute(c: Config, used: set<nat>, pos: nat, trace: seq<Step>, rest: seq<string>, o: Outcome)
    requires Routed(c, used, [], pos, trace, rest, o) && TokensAhead(trace, rest) == []
    ensures trace == [] && rest == [] && o == Parsed
  {
  }

  /** Conversely, a parse ends as a routing says, and if it succeeds its trace is that routing. */
  lemma {:induction false} RoutedParses(c: Config, st: seq<ArgState>, pos: nat, trace: seq<Step>, rest: seq<string>,
                                        o: Outcome)
    requires States(c, st) && pos <= |c.positionals|
    requires Routed(c, UsedIn(st), [], pos, trace, rest, o)
    ensures var r := Parse(c, st, TokensAhead(trace, rest), pos);
      r.outcome == o && (o == Parsed ==> r.trace == trace)
    decreases |TokensAhead(trace, rest)| + |c.positionals| - pos
  {
    hide OneTurn, TokensAhead, Routed, UsedIn;
    var tokens := TokensAhead(trace, rest);
    if tokens == [] {
      NothingToRoute(c, UsedIn(st), pos, trace, rest, o);
    } else {
      var tail := RoutedTurn(c, st, pos, trace, rest, o);
      var turn := OneTurn(c, st, tokens, pos);
      if turn.Go? {
        RoutedParses(c, turn.states, turn.pos, tail, rest, o);
      }
    }
  }

  /** How a parse can end: some of the tokens are routed, and then there is a reason to end in this way. */
  ghost predicate EndsAs(c: Config, used: set<nat>, tokens: seq<string>, pos: nat, o: Outcome) {
    exists trace, rest :: Routing(c, used, tokens, pos, trace, rest, o)
  }

  /** The parse ends as its tokens can be routed. There is just one way to end, and if that is success
    there is just one routing. */
  lemma ParseExactly(c: Config, st: seq<ArgState>, tokens: seq<string>, pos: nat)
    requires States(c, st) && pos <= |c.positionals|
    ensures var r := Parse(c, st, tokens, pos);
      && (forall o :: r.outcome == o <==> EndsAs(c, UsedIn(st), tokens, pos, o))
      && forall trace, rest :: Routing(c, UsedIn(st), tokens, pos, trace, rest, Parsed) ==>
           trace == r.trace && rest == []
  {
    hide Parse, Routed, TokensAhead;
    var trace, rest := ParseRoutes(c, st, tokens, pos);
    forall trace, rest, o | Routing(c, UsedIn(st), tokens, pos, trace, rest, o)
      ensures var r := Parse(c, st, tokens, pos);
        r.outcome == o && (o == Parsed ==> trace == r.trace && rest == [])
    {
      RoutedParses(c, st, pos, trace, rest, o);
      if o == Parsed {
        ParsedToTheEnd(c, UsedIn(st), [], pos, trace, rest);
      }
    }
  }

  lemma {:induction false} ParsedToTheEnd(c: Config, used: set<nat>, names: seq<string>, pos: nat, trace: seq<Step>,
                                          rest: seq<string>)
    requires Routed(c, used, names, pos, trace, rest, Parsed)
    ensures rest == []
    decreases |trace|
  {
    if trace != [] {
      match trace[0]
      case Slice(h, _, _) =>
        ParsedToTheEnd(c, used + {h}, if names == [] then [] else names[1..], if names == [] then pos + 1 else pos,
                       trace[1..], rest);
      case OptionToken(t) =>
        ParsedToTheEnd(c, used, NamesIn(c, t), pos, trace[1..], rest);
    }
  }

  /** On success the tokens split, in order, into the option tokens and the slices of the trace; every
    slice belongs to the argument it is meant for; and every argument holds exactly what its own
    slices amount to. */
  lemma ParseAccountsForTokens(c: Config, st: seq<ArgState>, tokens: seq<string>, pos: nat)
    requires States(c, st) && pos <= |c.positionals|
    ensures var r := Parse(c, st, tokens, pos);
      r.outcome == Parsed ==>
        && TokensOf(r.trace) == tokens
        && Routing(c, UsedIn(st), tokens, pos, r.trace, [], Parsed)
        && Accounted(c, st, r.states, r.trace)
  {
    hide Parse, Routed, TokensAhead, TokensOf, Accounted;
    ParseAccounts(c, st, tokens, pos);
    var _, _ := ParseRoutes(c, st, tokens, pos);
  }

  // ----- how many values an argument ends up with -----

  /** An argument that is used at most once and has no default to fall back on. */
  predicate Plain(sp: Spec) {
    !sp.hasDefault && !sp.isRepeatable
  }

  /** Unused means no values, used means as many as declared, and one stored value for a flag. */
  predicate Counted(sp: Spec, a: ArgState) {
    if !a.used then a.values == []
    else sp.nargs < 0 || |a.values| == (if sp.nargs == 0 then 1 else sp.nargs)
  }

  ghost predicate AllCounted(c: Config, st: seq<ArgState>)
    requires |st| == |c.specs|
  {
    forall h :: 0 <= h < |st| && Plain(c.specs[h]) ==> Counted(c.specs[h], st[h])
  }

  lemma NothingCounted(c: Config, st: seq<ArgState>)
    requires |st| == |c.specs| && forall h :: 0 <= h < |st| ==> st[h] == UNUSED
    ensures AllCounted(c, st)
  {
  }

  lemma ConsumeKeepsCounts(c: Config, st: seq<ArgState>, h: nat, rest: seq<string>, usedName: string)
    requires States(c, st) && h < |st| && AllCounted(c, st)
    ensures var (a, taken) := Consumed(c.specs[h], st[h], rest, usedName);
      taken.Ok? ==> taken.value <= |rest| && AllCounted(c, st[h := a])
  {
  }

  lemma {:induction false} LettersKeepCounts(c: Config, st: seq<ArgState>, t: string, j: nat, rest: seq<string>)
    requires States(c, st) && j <= |t| && AllCounted(c, st)
    ensures var (st', taken, _) := Letters(c, st, t, j, rest);
      taken.Ok? ==> AllCounted(c, st')
    decreases |t| - j
  {
    if j < |t| && Single(t[j]) in c.index {
      hide Consumed, AllCounted;
      var h := c.index[Single(t[j])];
      var (a, taken) := Consumed(c.specs[h], st[h], rest, Single(t[j]));
      ConsumeKeepsCounts(c, st, h, rest, Single(t[j]));
      if taken.Ok? {
        LettersKeepCounts(c, st[h := a], t, j + 1, rest[taken.value..]);
      }
    }
  }

  lemma TurnKeepsCounts(c: Config, st: seq<ArgState>, tokens: seq<string>, pos: nat)
    requires States(c, st) && pos <= |c.positionals| && tokens != [] && AllCounted(c, st)
    ensures var turn := OneTurn(c, st, tokens, pos);
      turn.Go? ==> AllCounted(c, turn.states)
  {
    hide Positional, Consumed, Letters, AllCounted;
    var t := tokens[0];
    if Positional(t) {
      if pos < |c.positionals| {
        var h := c.positionals[pos];
        ConsumeKeepsCounts(c, st, h, tokens, "");
        var (a, taken) := Consumed(c.specs[h], st[h], tokens, "");
        assert OneTurn(c, st, tokens, pos).states == st[h := a];
      }
    } else if t in c.index {
      var h := c.index[t];
      ConsumeKeepsCounts(c, st, h, tokens[1..], t);
      var (a, taken) := Consumed(c.specs[h], st[h], tokens[1..], t);
      assert taken.Ok? ==> AllCounted(c, st[h := a]);
    } else if Compound(t) {
      LettersKeepCounts(c, st, t, 1, tokens[1..]);
    }
  }

  /** Over a whole parse every plain argument keeps its count. */
  lemma {:induction false} ParseKeepsCounts(c: Config, st: seq<ArgState>, tokens: seq<string>, pos: nat)
    requires States(c, st) && pos <= |c.positionals| && AllCounted(c, st)
    ensures var r := Parse(c, st, tokens, pos);
      r.outcome == Parsed ==> AllCounted(c, r.states)
    decreases |tokens| + |c.positionals| - pos
  {
    if tokens != [] {
      var turn := OneTurn(c, st, tokens, pos);
      TurnKeepsCounts(c, st, tokens, pos);
      if turn.Go? {
        ParseKeepsCounts(c, turn.states, tokens[turn.taken..], turn.pos);
      }
    }
  }

  /** What the check makes of a plain argument after a successful parse: a wrong count is reported for
    a flag that was used, and for no other optional argument; a positional passes exactly when it
    got its values. */
  lemma ValidateExactly(sp: Spec, a: ArgState)
    requires Plain(sp) && Counted(sp, a) && sp.nargs >= 0
    ensures sp.isOptional ==>
      && (Checked(sp, a) == Err(WrongCount(0, 1)) <==> a.used && sp.nargs == 0)
      && (Checked(sp, a) == Err(Required) <==> !a.used && sp.isRequired)
      && (Checked(sp, a) == Ok(()) <==> if a.used then sp.nargs > 0 else !sp.isRequired)
    ensures !sp.isOptional ==> (Checked(sp, a) == Ok(()) <==> (a.used <==> sp.nargs > 0))
  {
  }

  /** Whatever the argument is and however it was used: when each of the checks fails. */
  lemma CheckedExactly(sp: Spec, a: ArgState)
    ensures var check := Checked(sp, a);
      && (sp.nargs < 0 ==> check == Ok(()))
      && (check == Err(Required) <==>
            sp.nargs >= 0 && sp.isOptional && sp.isRequired && !sp.hasDefault && !a.used)
      && (check == Err(NoValueProvided) <==>
            && sp.nargs >= 0 && sp.isOptional && sp.isRequired && a.used && a.values == []
            && (sp.nargs == 0 || sp.hasDefault || sp.isRepeatable))
      && (check == Err(WrongCount(sp.nargs, |a.values|)) <==>
            && sp.nargs >= 0 && !sp.hasDefault && |a.values| != sp.nargs
            && (sp.isOptional ==> a.used && !sp.isRepeatable))
      && (check.Err? ==> check.error in {Required, NoValueProvided, WrongCount(sp.nargs, |a.values|)})
  {
  }

  /** On a fresh parser, after a successful parse: for a plain argument the check depends only on whether
    it was served. A wrong count is reported for a flag that was, and for no other optional
    argument; a positional passes exactly when it was served, or takes no values and was not. */
  lemma FreshParseChecks(c: Config, st: seq<ArgState>, tokens: seq<string>, h: nat)
    requires States(c, st) && (forall g :: 0 <= g < |st| ==> st[g] == UNUSED)
    requires Parse(c, st, tokens, 0).outcome == Parsed
    requires h < |c.specs| && Plain(c.specs[h]) && c.specs[h].nargs >= 0
    ensures var r := Parse(c, st, tokens, 0);
      var sp, check := c.specs[h], Checked(c.specs[h], r.states[h]);
      var served := IsServed(h, r.trace);
      if sp.isOptional then
        && (check == Err(WrongCount(0, 1)) <==> served && sp.nargs == 0)
        && (check == Err(Required) <==> !served && sp.isRequired)
        && (check == Ok(()) <==> if served then sp.nargs > 0 else !sp.isRequired)
      else check == Ok(()) <==> (served <==> sp.nargs > 0)
  {
    ParseKeepsCounts(c, st, tokens, 0);
    ParseAccountsForTokens(c, st, tokens, 0);
    hide Parse, Checked, TokensOf, ValuesFrom;
    var r := Parse(c, st, tokens, 0);
    assert AccountedFor(c.specs[h], st[h], r.states[h], h, r.trace);
    ValidateExactly(c.specs[h], r.states[h]);
  }

  // ----- registration -----

  function IndexAll(index: map<string, nat>, names: seq<string>, h: nat): map<string, nat>
    decreases |names|
  {
    if names == [] then index else IndexAll(index[names[0] := h], names[1..], h)
  }

  lemma {:induction false} IndexAllLooksUp(index: map<string, nat>, names: seq<string>, h: nat, name: string)
    ensures var r := IndexAll(index, names, h);
      if name in names then name in r && r[name] == h
      else (name in r <==> name in index) && (name in r ==> r[name] == index[name])
    decreases |names|
  {
    if names != [] {
      IndexAllLooksUp(index[names[0] := h], names[1..], h, name);
    }
  }

  /** The configuration after one more `add_argument`; an argument is optional if any of its names
    looks like an option. */
  ghost function Registered(c: Config, sp: Spec): Config {
    var h := |c.specs|;
    var optional := AnyOptional(sp.names);
    Config(c.specs + [sp.(isOptional := optional)],
           if optional then c.positionals else c.positionals + [h],
           if optional then c.optionals + [h] else c.optionals,
           IndexAll(c.index, sp.names, h))
  }

  /** A name is found exactly when some argument carries it, and then the latest one is found. */
  ghost predicate FindsLatest(specs: seq<Spec>, index: map<string, nat>) {
    && (forall name :: name in index ==> index[name] < |specs| && name in specs[index[name]].names)
    && (forall h, name :: 0 <= h < |specs| && name in specs[h].names ==> name in index && h <= index[name])
  }

  /** A list of all arguments of one kind, in the order of registration. */
  ghost predicate Lists(specs: seq<Spec>, list: seq<nat>, optional: bool) {
    && (forall i :: 0 <= i < |list| ==> list[i] < |specs| && specs[list[i]].isOptional == optional)
    && (forall h :: 0 <= h < |specs| && specs[h].isOptional == optional ==> h in list)
    && (forall i, j :: 0 <= i < j < |list| ==> list[i] < list[j])
  }

  /** An argument is optional exactly if one of its names looks like an option. */
  ghost predicate KindByName(specs: seq<Spec>) {
    forall h :: 0 <= h < |specs| ==>
      (specs[h].isOptional <==> exists name :: name in specs[h].names && !Positional(name))
  }

  /** Every name finds the latest argument that carries it, and the two lists hold the arguments of
    their kind. */
  ghost predicate Indexed(c: Config) {
    && FindsLatest(c.specs, c.index)
    && KindByName(c.specs)
    && Lists(c.specs, c.positionals, false)
    && Lists(c.specs, c.optionals, true)
  }

  lemma OneMoreListed(specs: seq<Spec>, list: seq<nat>, optional: bool, sp: Spec)
    requires Lists(specs, list, optional)
    ensures Lists(specs + [sp], if sp.isOptional == optional then list + [|specs|] else list, optional)
  {
    var list' := if sp.isOptional == optional then list + [|specs|] else list;
    forall h | 0 <= h < |specs| + 1 && (specs + [sp])[h].isOptional == optional
      ensures h in list'
    {
      if h < |specs| {
        assert specs[h].isOptional == optional;
      } else {
        assert list'[|list|] == h;
      }
    }
  }

  lemma OneMoreKind(specs: seq<Spec>, sp: Spec)
    requires KindByName(specs)
    ensures KindByName(specs + [sp.(isOptional := AnyOptional(sp.names))])
  {
    assert forall i :: 0 <= i < |sp.names| ==> sp.names[i] in sp.names;
  }

  lemma OneMoreFindsLatest(specs: seq<Spec>, index: map<string, nat>, sp: Spec)
    requires FindsLatest(specs, index)
    ensures FindsLatest(specs + [sp], IndexAll(index, sp.names, |specs|))
  {
    hide IndexAll;
    var specs', index' := specs + [sp], IndexAll(index, sp.names, |specs|);
    forall name | name in index'
      ensures index'[name] < |specs'| && name in specs'[index'[name]].names
    {
      IndexAllLooksUp(index, sp.names, |specs|, name);
    }
    forall h, name | 0 <= h < |specs'| && name in specs'[h].names
      ensures name in index' && h <= index'[name]
    {
      IndexAllLooksUp(index, sp.names, |specs|, name);
      if h < |specs| {
        assert name in specs[h].names;
      }
    }
  }

  lemma RegisteredKeepsIndexed(c: Config, sp: Spec)
    requires Indexed(c)
    ensures Indexed(Registered(c, sp))
  {
    hide FindsLatest, IndexAll, AnyOptional, Lists, KindByName;
    var sp' := sp.(isOptional := AnyOptional(sp.names));
    OneMoreFindsLatest(c.specs, c.index, sp');
    OneMoreKind(c.specs, sp);
    OneMoreListed(c.specs, c.positionals, false, sp');
    OneMoreListed(c.specs, c.optionals, true, sp');
  }

  /** The order of names in the map: byte by byte. */
  predicate NotAfter(a: string, b: string) {
    a == "" || (b != "" && (a[0] < b[0] || (a[0] == b[0] && NotAfter(a[1..], b[1..]))))
  }

  lemma {:induction false} NamesAreOrdered(a: string, b: string, c: string)
    ensures NotAfter(a, a) && (NotAfter(a, b) || NotAfter(b, a))
    ensures NotAfter(a, b) && NotAfter(b, c) ==> NotAfter(a, c)
    ensures NotAfter(a, b) && NotAfter(b, a) ==> a == b
  {
    if a != "" {
      NamesAreOrdered(a[1..], if b == "" then "" else b[1..], if c == "" then "" else c[1..]);
      assert b != "" ==> a == [a[0]] + a[1..] && b == [b[0]] + b[1..];
    }
  }

  lemma {:induction false} FirstExists(names: set<string>)
    requires names != {}
    ensures exists name :: name in names && forall other :: other in names ==> NotAfter(name, other)
  {
    var x :| x in names;
    NamesAreOrdered(x, x, x);
    if names == {x} {
      assert forall other :: other in names ==> NotAfter(x, other);
    } else {
      FirstExists(names - {x});
      var y :| y in names - {x} && forall other :: other in names - {x} ==> NotAfter(y, other);
      var first := if NotAfter(x, y) then x else y;
      forall other | other in names
        ensures NotAfter(first, other)
      {
        NamesAreOrdered(x, y, other);
        NamesAreOrdered(y, y, y);
      }
    }
  }

  const HELP := Spec(["-h", "--help"], 0, true, false, false, false, Nothing, Valued(_ => Nothing))
  const VERSION := Spec(["-v", "--version"], 0, true, false, false, false, Nothing, Valued(_ => Nothing))

  lemma BuiltInsAreOptional()
    ensures AnyOptional(HELP.names) && AnyOptional(VERSION.names)
  {
    FirstCharacter("h");
    FirstCharacter("v");
    assert "-h"[1..] == "h" && "-v"[1..] == "v";
    assert !Positional(HELP.names[0]) && !Positional(VERSION.names[0]);
  }

  lemma BuiltInIndex()
    ensures IndexAll(IndexAll(map[], HELP.names, 0), VERSION.names, 1) ==
      map["-h" := 0, "--help" := 0, "-v" := 1, "--version" := 1]
  {
    assert HELP.names[1..] == ["--help"] && VERSION.names[1..] == ["--version"];
    assert ["--help"][1..] == [] && ["--version"][1..] == [];
    var help := map["-h" := 0, "--help" := 0];
    assert IndexAll(map["-h" := 0], ["--help"], 0) == IndexAll(help, [], 0) == help;
    assert IndexAll(map[], HELP.names, 0) == help;
    var one: map<string, nat> := help["-v" := 1];
    assert IndexAll(one, ["--version"], 1) == IndexAll(one["--version" := 1], [], 1);
  }

  lemma BuiltInConfig()
    ensures var c := Registered(Registered(Config([], [], [], map[]), HELP), VERSION);
      && Indexed(c) && c.positionals == [] && c.optionals == [0, 1] && |c.specs| == 2
      && c.index == map["-h" := 0, "--help" := 0, "-v" := 1, "--version" := 1]
  {
    BuiltInsAreOptional();
    BuiltInIndex();
    hide IndexAll;
    RegisteredKeepsIndexed(Config([], [], [], map[]), HELP);
    RegisteredKeepsIndexed(Registered(Config([], [], [], map[]), HELP), VERSION);
  }

  // ----- in place -----

  class Argument {
    const spec: Spec
    var mIsUsed: bool
    var mUsedName: string
    var mValues: seq<Value>

    constructor (spec: Spec)
      ensures this.spec == spec && State() == UNUSED
    {
      this.spec := spec;
      mIsUsed, mUsedName, mValues := false, "", [];
    }

    function State(): ArgState
      reads this
    {
      ArgState(mIsUsed, mUsedName, mValues)
    }

    /** Consumes from position `start`; the result is the position behind the tokens taken. */
    method Consume(args: seq<string>, start: nat, usedName: string) returns (r: Result<nat>)
      requires start <= |args|
      modifies this
      ensures var (a, taken) := Consumed(spec, old(State()), args[start..], usedName);
        && State() == a
        && r == (if taken.Ok? then Ok(start + taken.value) else taken)
    {
      if !spec.isRepeatable && mIsUsed {
        return Err(DuplicateArgument);
      }
      mIsUsed := true;
      mUsedName := usedName;
      if spec.nargs == 0 {
        mValues := mValues + [spec.implicitValue];
        return Ok(start);
      } else if spec.nargs <= |args| - start {
        var end := if spec.nargs < 0 then |args| else start + spec.nargs;
        assert args[start..][..end - start] == args[start..end];
        if spec.nargs >= 0 {
          var optional := FindOptional(args, start, end);
          if optional {
            return Err(OptionalInSequence);
          }
        }
        match spec.action {
          case Valued(f) =>
            mValues := Transform(args, start, end, mValues, f);
          case Void =>
            if !spec.hasDefault && spec.nargs >= 0 {
              mValues := Resized(mValues, spec.nargs);
            }
        }
        return Ok(end);
      } else if spec.hasDefault {
        return Ok(start);
      } else {
        return Err(TooFewArguments);
      }
    }

    method Validate() returns (r: Result<()>)
      ensures r == Checked(spec, State())
    {
      if spec.nargs >= 0 {
        if spec.isOptional {
          if mIsUsed && |mValues| != spec.nargs && !spec.isRepeatable && !spec.hasDefault {
            return Err(WrongCount(spec.nargs, |mValues|));
          } else {
            if !mIsUsed && !spec.hasDefault && spec.isRequired {
              return Err(Required);
            }
            if mIsUsed && spec.isRequired && |mValues| == 0 {
              return Err(NoValueProvided);
            }
          }
        } else if |mValues| != spec.nargs && !spec.hasDefault {
          return Err(WrongCount(spec.nargs, |mValues|));
        }
      }
      return Ok(());
    }
  }

  /** Appends what `f` makes of each token of a range. */
  method Transform(args: seq<string>, start: nat, end: nat, values: seq<Value>,
                   f: string -> Value) returns (r: seq<Value>)
    requires start <= end <= |args|
    ensures r == values + MapValues(f, args[start..end])
  {
    r := values;
    for i := start to end
      invariant r == values + MapValues(f, args[start..i])
    {
      assert MapValues(f, args[start..i + 1]) == MapValues(f, args[start..i]) + [f(args[i])];
      r := r + [f(args[i])];
    }
  }

  method FindOptional(args: seq<string>, start: nat, end: nat) returns (found: bool)
    requires start <= end <= |args|
    ensures found <==> AnyOptional(args[start..end])
  {
    for i := start to end
      invariant !AnyOptional(args[start..i])
    {
      var positional := IsPositional(args[i]);
      if !positional {
        assert !Positional(args[start..end][i - start]);
        return true;
      }
      assert args[start..i + 1] == args[start..i] + [args[i]];
    }
    return false;
  }

  ghost function SpecsOf(arguments: seq<Argument>): seq<Spec> {
    seq(|arguments|, i requires 0 <= i < |arguments| => arguments[i].spec)
  }

  ghost function StatesOf(arguments: seq<Argument>): seq<ArgState>
    reads arguments
  {
    seq(|arguments|, i requires 0 <= i < |arguments| reads arguments => arguments[i].State())
  }

  ghost predicate NoAliases(arguments: seq<Argument>) {
    forall i, j :: 0 <= i < j < |arguments| ==> arguments[i] != arguments[j]
  }

  class ArgumentParser {
    /** All arguments in order of registration; the lists and the map refer to them by number. */
    var arguments: seq<Argument>
    var mPositionalArguments: seq<nat>
    var mOptionalArguments: seq<nat>
    var mArgumentMap: map<string, nat>

    ghost function Settings(): Config
      reads this
    {
      Config(SpecsOf(arguments), mPositionalArguments, mOptionalArguments, mArgumentMap)
    }

    ghost predicate Valid()
      reads this
      ensures Valid() ==> WellFormed(Settings())
    {
      && NoAliases(arguments)
      && Indexed(Settings())
      && |mOptionalArguments| >= 2 && mOptionalArguments[0] == 0 && mOptionalArguments[1] == 1
    }

    ghost predicate Fresh()
      reads this, arguments
    {
      Valid() && forall i :: 0 <= i < |arguments| ==> arguments[i].State() == UNUSED
    }

    constructor ()
      ensures Fresh() && fresh(arguments)
      ensures Settings() == Registered(Registered(Config([], [], [], map[]), HELP), VERSION)
      ensures mArgumentMap == map["-h" := 0, "--help" := 0, "-v" := 1, "--version" := 1]
      ensures mPositionalArguments == [] && mOptionalArguments == [0, 1]
    {
      arguments, mPositionalArguments, mOptionalArguments, mArgumentMap := [], [], [], map[];
      new;
      hide Registered, FindsLatest;
      BuiltInConfig();
      assert Settings() == Config([], [], [], map[]);
      Add(HELP);
      assert arguments == [arguments[0]];
      Add(VERSION);
      assert arguments == [arguments[0], arguments[1]];
    }

    /** `add_argument` without what it returns. */
    method Add(sp: Spec)
      requires NoAliases(arguments)
      modifies this
      ensures |arguments| == |old(arguments)| + 1 && arguments[..|old(arguments)|] == old(arguments)
      ensures NoAliases(arguments) && fresh(arguments[|old(arguments)|])
      ensures arguments[|old(arguments)|].State() == UNUSED
      ensures Settings() == Registered(old(Settings()), sp)
    {
      var optional := FindOptional(sp.names, 0, |sp.names|);
      assert sp.names[0..|sp.names|] == sp.names;
      var h := |arguments|;
      var argument := new Argument(sp.(isOptional := optional));
      arguments := arguments + [argument];
      if optional {
        mOptionalArguments := mOptionalArguments + [h];
      } else {
        mPositionalArguments := mPositionalArguments + [h];
      }
      IndexArgument(sp.names, h);
    }

    method AddArgument(sp: Spec)
      requires Valid()
      modifies this
      ensures Valid() && Settings() == Registered(old(Settings()), sp)
      ensures |arguments| == |old(arguments)| + 1 && arguments[..|old(arguments)|] == old(arguments)
      ensures fresh(arguments[|old(arguments)|]) && arguments[|old(arguments)|].State() == UNUSED
    {
      RegisteredKeepsIndexed(Settings(), sp);
      Add(sp);
    }

    method IndexArgument(names: seq<string>, h: nat)
      modifies this`mArgumentMap
      ensures mArgumentMap == IndexAll(old(mArgumentMap), names, h)
    {
      for i := 0 to |names|
        invariant IndexAll(old(mArgumentMap), names, h) == IndexAll(mArgumentMap, names[i..], h)
      {
        mArgumentMap := mArgumentMap[names[i] := h];
      }
    }

    /** Lets argument h consume; no other argument changes. */
    method Feed(h: nat, args: seq<string>, start: nat, usedName: string) returns (r: Result<nat>)
      requires NoAliases(arguments) && h < |arguments| && start <= |args|
      modifies arguments[h]
      ensures var (a, taken) := Consumed(arguments[h].spec, old(arguments[h].State()), args[start..], usedName);
        && StatesOf(arguments) == old(StatesOf(arguments))[h := a]
        && r == (if taken.Ok? then Ok(start + taken.value) else taken)
    {
      r := arguments[h].Consume(args, start, usedName);
      assert forall i :: 0 <= i < |arguments| && i != h ==> arguments[i] != arguments[h];
    }

    /** The letters of the compound token `t`, consuming from position `start`. */
    method ParseLetters(t: string, args: seq<string>, start: nat) returns (r: Result<nat>, ghost steps: seq<Step>)
      requires Valid() && |t| > 0 && start <= |args|
      modifies arguments
      ensures Valid()
      ensures var (st, taken, made) := Letters(Settings(), old(StatesOf(arguments)), t, 1, args[start..]);
        && StatesOf(arguments) == st
        && r == (if taken.Ok? then Ok(start + taken.value) else taken)
        && (taken.Ok? ==> steps == made)
    {
      hide Consumed, Indexed, Letters;
      ghost var c := Settings();
      ghost var whole := Letters(c, StatesOf(arguments), t, 1, args[start..]);
      AfterNoLetters(whole);
      var it := start;
      steps := [];
      for j := 1 to |t|
        invariant Valid() && Settings() == c
        invariant start <= it <= |args|
        invariant whole == AfterLetters(it - start, steps, Letters(c, StatesOf(arguments), t, j, args[it..]))
      {
        var name := Single(t[j]);
        LettersStep(c, StatesOf(arguments), t, j, args[it..], it - start, steps);
        if name !in mArgumentMap {
          return Err(UnknownArgument), [];
        }
        var h := mArgumentMap[name];
        ghost var rest := args[it..];
        ghost var n := it;
        var fed := Feed(h, args, it, name);
        if fed.Err? {
          return fed, [];
        }
        it := fed.value;
        assert rest[it - n..] == args[it..];
        steps := steps + [Slice(h, name, rest[..it - n])];
      }
      NoLettersLeft(c, StatesOf(arguments), t, args[it..], it - start, steps);
      return Ok(it), steps;
    }

    /** One turn of the parse loop at position `it`; `pos` is the next positional to serve. */
    method ParseTurn(args: seq<string>, it: nat, pos: nat)
      returns (outcome: Outcome, it': nat, pos': nat, ghost steps: seq<Step>)
      requires Valid() && it < |args| && pos <= |mPositionalArguments|
      modifies arguments
      ensures Valid()
      ensures match OneTurn(Settings(), old(StatesOf(arguments)), args[it..], pos)
        case Halt(st, halted) => StatesOf(arguments) == st && outcome == halted != Parsed
        case Go(st, taken, next, made) =>
          StatesOf(arguments) == st && outcome == Parsed && it' == it + taken && pos' == next && steps == made
    {
      hide Consumed, Indexed, Letters;
      it', pos', steps := it, pos, [];
      var t := args[it];
      ghost var rest := args[it..];
      assert rest[1..] == args[it + 1..];
      var positional := IsPositional(t);
      if positional {
        if pos == |mPositionalArguments| {
          return Failed(TooManyPositionals), it, pos, [];
        }
        var h := mPositionalArguments[pos];
        var fed := Feed(h, args, it, "");
        if fed.Err? {
          return Failed(fed.error), it, pos, [];
        }
        return Parsed, fed.value, pos + 1, [Slice(h, "", rest[..fed.value - it])];
      }
      if t in mArgumentMap {
        var h := mArgumentMap[t];
        if h == mOptionalArguments[0] {
          return HelpShown, it, pos, [];
        } else if h == mOptionalArguments[1] {
          return VersionShown, it, pos, [];
        }
        var fed := Feed(h, args, it + 1, t);
        if fed.Err? {
          return Failed(fed.error), it, pos, [];
        }
        return Parsed, fed.value, pos, [OptionToken(t), Slice(h, t, rest[1..][..fed.value - (it + 1)])];
      } else if |t| > 1 && t[0] == '-' && t[1] != '-' {
        var r, made := ParseLetters(t, args, it + 1);
        if r.Err? {
          return Failed(r.error), it, pos, [];
        }
        return Parsed, r.value, pos, [OptionToken(t)] + made;
      } else {
        return Failed(UnknownArgument), it, pos, [];
      }
    }

    /** `parse_args_internal`: the loop over the tokens behind the program name. */
    method ParseArgsInternal(args: seq<string>) returns (outcome: Outcome, ghost trace: seq<Step>)
      requires Valid() && args != []
      modifies arguments
      ensures Valid()
      ensures var r := Parse(Settings(), old(StatesOf(arguments)), args[1..], 0);
        StatesOf(arguments) == r.states && outcome == r.outcome && (outcome == Parsed ==> trace == r.trace)
    {
      hide OneTurn, Indexed, WellFormed;
      ghost var c := Settings();
      ghost var whole := Parse(c, StatesOf(arguments), args[1..], 0);
      AfterNothing(whole);
      var it: nat, pos: nat := 1, 0;
      trace := [];
      while it < |args|
        invariant Valid() && Settings() == c
        invariant it <= |args| && pos <= |mPositionalArguments|
        invariant whole == After(trace, Parse(c, StatesOf(arguments), args[it..], pos))
        decreases |args| - it + |mPositionalArguments| - pos
      {
        ghost var st := StatesOf(arguments);
        ghost var rest := args[it..];
        ghost var n := it;
        TurnStep(c, st, rest, pos, trace);
        ghost var steps;
        outcome, it, pos, steps := ParseTurn(args, it, pos);
        if outcome != Parsed {
          return outcome, [];
        }
        assert rest[it - n..] == args[it..];
        trace := trace + steps;
      }
      NothingLeft(c, StatesOf(arguments), pos, trace);
      return Parsed, trace;
    }

    ghost function CheckOf(name: string): Result<()>
      requires Valid() && name in mArgumentMap
      reads this, arguments
    {
      var argument := arguments[mArgumentMap[name]];
      Checked(argument.spec, argument.State())
    }

    method CheckArgument(name: string) returns (r: Result<()>)
      requires Valid() && name in mArgumentMap
      ensures r == CheckOf(name)
    {
      r := arguments[mArgumentMap[name]].Validate();
    }

    /** The first name in order whose argument fails its check. */
    ghost predicate FirstToFail(name: string)
      requires Valid()
      reads this, arguments
    {
      && name in mArgumentMap && CheckOf(name).Err?
      && forall other :: other in mArgumentMap && CheckOf(other).Err? ==> NotAfter(name, other)
    }

    /** `parse_args_validate`: every name's argument is checked, in the order of the names; the first check
      that fails is reported. */
    method ParseArgsValidate() returns (r: Result<()>)
      requires Valid()
      ensures r.Ok? <==> forall name :: name in mArgumentMap ==> CheckOf(name).Ok?
      ensures r.Err? ==> exists name :: FirstToFail(name) && CheckOf(name) == r
    {
      hide CheckOf, NotAfter, Valid;
      var names := mArgumentMap.Keys;
      while names != {}
        invariant names <= mArgumentMap.Keys
        invariant forall name :: name in mArgumentMap && name !in names ==> CheckOf(name).Ok?
        decreases |names|
      {
        FirstExists(names);
        var name :| name in names && forall other :: other in names ==> NotAfter(name, other);
        r := CheckArgument(name);
        if r.Err? {
          assert FirstToFail(name);
          return r;
        }
        names := names - {name};
      }
      return Ok(());
    }

    /** `parse_args` on a parser that has not parsed yet. It ends as the tokens behind the program name can
      be routed: in an error at a token that cannot be, with help or version shown where those are asked
      for, or else with the checks, of which the first that fails is reported. On success the trace is
      the only routing, and every argument holds what its own slices amount to, as many as declared. */
    method ParseArgs(args: seq<string>) returns (outcome: Outcome, ghost trace: seq<Step>)
      requires Fresh() && args != []
      modifies arguments
      ensures Valid()
      ensures forall o :: o != Parsed && EndsAs(Settings(), {}, args[1..], 0, o) ==> outcome == o
      ensures EndsAs(Settings(), {}, args[1..], 0, Parsed) ==>
        || outcome == Parsed
        || exists name :: FirstToFail(name) && outcome == Failed(CheckOf(name).error)
      ensures EndsAs(Settings(), {}, args[1..], 0, Parsed) || EndsAs(Settings(), {}, args[1..], 0, outcome)
      ensures outcome == Parsed ==>
        && TokensOf(trace) == args[1..] && Routing(Settings(), {}, args[1..], 0, trace, [], Parsed)
        && (forall other, rest :: Routing(Settings(), {}, args[1..], 0, other, rest, Parsed) ==> other == trace)
        && Accounted(Settings(), old(StatesOf(arguments)), StatesOf(arguments), trace)
        && AllCounted(Settings(), StatesOf(arguments))
        && forall name :: name in mArgumentMap ==> CheckOf(name).Ok?
    {
      hide FindsLatest, Parse, Accounted, TokensOf, TokensAhead, Checked, Routed, AllCounted, EndsAs;
      ghost var c := Settings();
      ghost var st := StatesOf(arguments);
      ParseExactly(c, st, args[1..], 0);
      ParseAccountsForTokens(c, st, args[1..], 0);
      NothingCounted(c, st);
      ParseKeepsCounts(c, st, args[1..], 0);
      assert UsedIn(st) == {};
      outcome, trace := ParseArgsInternal(args);
      if outcome == Parsed {
        var r := ParseArgsValidate();
        if r.Err? {
          outcome := Failed(r.error);
        }
      }
    }
  }

  lemma AfterNothing(r: Run)
    ensures After([], r) == r
  {
    assert [] + r.trace == r.trace;
  }

  lemma NothingLeft(c: Config, st: seq<ArgState>, pos: nat, trace: seq<Step>)
    requires States(c, st) && pos <= |c.positionals|
    ensures After(trace, Parse(c, st, [], pos)) == Run(st, Parsed, trace)
  {
    assert trace + [] == trace;
  }

  /** One turn more, as the parse loop sees it. */
  lemma TurnStep(c: Config, st: seq<ArgState>, rest: seq<string>, pos: nat, trace: seq<Step>)
    requires States(c, st) && pos <= |c.positionals| && rest != []
    ensures match OneTurn(c, st, rest, pos)
      case Halt(st', outcome) => Parse(c, st, rest, pos) == Run(st', outcome, [])
      case Go(st', taken, pos', steps) =>
        After(trace, Parse(c, st, rest, pos)) == After(trace + steps, Parse(c, st', rest[taken..], pos'))
  {
    hide OneTurn;
    match OneTurn(c, st, rest, pos)
    case Halt(_, _) =>
    case Go(st', taken, pos', steps) =>
      var more := Parse(c, st', rest[taken..], pos');
      assert trace + (steps + more.trace) == (trace + steps) + more.trace;
  }
}
