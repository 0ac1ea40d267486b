/** doctest's subcase protocol: a test body is run again and again, and each run enters the
  one chain of subcases that leads to the next leaf not visited yet. */
module Subcases {
  import opened Common
  import Wildcard

  datatype Signature = Signature(name: string, file: string, line: int)

  /** A test body as far as the protocol sees it: its SUBCASE blocks in program order. */
  datatype Body = Done | Block(sig: Signature, inner: Body, next: Body)

  /** The two subcase filter lists, applied on the first `levels` levels. */
  datatype Filters = Filters(levels: nat, only: seq<string>, but: seq<string>, caseSensitive: bool)

  /** A leaf: its stack of signatures, and its position in the body as sibling indices. */
  datatype Leaf = Leaf(stack: seq<Signature>, trail: seq<nat>)

  ghost predicate Hidden(f: Filters, sig: Signature, depth: nat) {
    && depth < f.levels
    && (|| !Wildcard.AnyMatches(sig.name, f.only, true, f.caseSensitive)
        || Wildcard.AnyMatches(sig.name, f.but, false, f.caseSensitive))
  }

  /** A subcase is hidden on the first levels only: by inclusive filters none of which matches its name,
    or by an exclusive one that does. */
  lemma HiddenExactly(f: Filters, sig: Signature, depth: nat)
    ensures Hidden(f, sig, depth) <==>
      && depth < f.levels
      && (|| (f.only != [] && forall m :: m in f.only ==> !Wildcard.Matches(m, sig.name, f.caseSensitive))
          || (exists m :: m in f.but && Wildcard.Matches(m, sig.name, f.caseSensitive)))
  {
    assert forall i :: 0 <= i < |f.only| ==> f.only[i] in f.only;
    assert forall i :: 0 <= i < |f.but| ==> f.but[i] in f.but;
  }

  ghost predicate CStrings(b: Body) {
    b.Block? ==> Wildcard.CString(b.sig.name) && CStrings(b.inner) && CStrings(b.next)
  }

  // ----- what the protocol is meant to do -----

  /** The leaves below a body, left to right. */
  ghost function Leaves(f: Filters, b: Body, stack: seq<Signature>, trail: seq<nat>, i: nat): seq<Leaf>
    decreases b, 0
  {
    match b
    case Done => []
    case Block(sig, inner, next) =>
      (if Hidden(f, sig, |stack|) then [] else BlockLeaves(f, sig, inner, stack, trail, i))
      + Leaves(f, next, stack, trail, i + 1)
  }

  ghost function BlockLeaves(f: Filters, sig: Signature, inner: Body, stack: seq<Signature>, trail: seq<nat>, i: nat)
    : seq<Leaf>
    decreases inner, 1
  {
    var below := Leaves(f, inner, stack + [sig], trail + [i], 0);
    if below == [] then [Leaf(stack + [sig], trail + [i])] else below
  }

  /** The blocks of a body that hold no others. */
  function CountLeaves(b: Body): nat {
    match b
    case Done => 0
    case Block(_, inner, next) => (if inner.Done? then 1 else CountLeaves(inner)) + CountLeaves(next)
  }

  /** Without filters, or on no level, every leaf is visible. */
  lemma {:induction false} UnfilteredLeaves(f: Filters, b: Body, stack: seq<Signature>, trail: seq<nat>, i: nat)
    requires f.levels == 0 || (f.only == [] && f.but == [])
    ensures |Leaves(f, b, stack, trail, i)| == CountLeaves(b)
  {
    if b.Block? {
      HiddenExactly(f, b.sig, |stack|);
      UnfilteredLeaves(f, b.inner, stack + [b.sig], trail + [i], 0);
      UnfilteredLeaves(f, b.next, stack, trail, i + 1);
      SomeLeaf(b.inner);
    }
  }

  lemma {:induction false} SomeLeaf(b: Body)
    ensures CountLeaves(b) == 0 <==> b.Done?
  {
    if b.Block? {
      SomeLeaf(b.inner);
    }
  }

  /** The blocks on the way to the leaf `t`, outermost first, leaving out the first `from`. */
  ghost function Chain(t: seq<nat>, from: nat): seq<seq<nat>>
    requires from <= |t|
  {
    seq(|t| - from, j requires 0 <= j < |t| - from => t[..from + j + 1])
  }

  /** One run per leaf, in order; a body without subcases is run once. */
  ghost function ExpectedRuns(f: Filters, b: Body): seq<seq<seq<nat>>> {
    var ls := Leaves(f, b, [], [], 0);
    if ls == [] then [[]] else seq(|ls|, j requires 0 <= j < |ls| => Chain(ls[j].trail, 0))
  }

  /** No two visible siblings carry the same signature (`seen` are the earlier ones). */
  ghost predicate Distinct(f: Filters, b: Body, depth: nat, seen: set<Signature>) {
    match b
    case Done => true
    case Block(sig, inner, next) =>
      if Hidden(f, sig, depth) then Distinct(f, next, depth, seen)
      else
        && sig !in seen
        && Distinct(f, inner, depth + 1, {})
        && Distinct(f, next, depth, seen + {sig})
  }

  // ----- what the protocol does -----

  /** The fields of the context that the protocol reads and writes; `trail` and `entered` record
    the position in the body and the positions entered during this run. */
  datatype State = State(
    stack: seq<Signature>, trail: seq<nat>, passed: set<seq<Signature>>,
    maxLevel: nat, reenter: bool, entered: seq<seq<nat>>)

  function FreshRun(passed: set<seq<Signature>>): State {
    State([], [], passed, 0, false, [])
  }

  ghost function Enter(f: Filters, st: State, sig: Signature, i: nat): (State, bool) {
    if Hidden(f, sig, |st.stack|) then (st, false)
    else if |st.stack| < st.maxLevel then (st.(reenter := true), false)
    else if st.stack + [sig] in st.passed then (st, false)
    else
      (st.(stack := st.stack + [sig], trail := st.trail + [i], maxLevel := |st.stack| + 1,
           entered := st.entered + [st.trail + [i]]), true)
  }

  ghost function Leave(st: State): State
    requires st.stack != [] && st.trail != []
  {
    st.(passed := if st.reenter then st.passed else st.passed + {st.stack},
        stack := st.stack[..|st.stack| - 1], trail := st.trail[..|st.trail| - 1])
  }

  /** One execution of a body whose first block is the i-th among its siblings. */
  ghost function Walk(f: Filters, b: Body, i: nat, st: State): (r: State)
    ensures r.stack == st.stack && r.trail == st.trail
  {
    match b
    case Done => st
    case Block(sig, inner, next) =>
      var (s1, entered) := Enter(f, st, sig, i);
      Walk(f, next, i + 1, if entered then Leave(Walk(f, inner, 0, s1)) else s1)
  }

  /** Between two constructor calls: the level never falls below the stack, and once a sibling
    was skipped nothing more can be entered. */
  ghost predicate Consistent(st: State) {
    |st.stack| <= st.maxLevel && (st.reenter ==> |st.stack| < st.maxLevel)
  }

  /** All paths of signatures that a body can put on the stack. */
  ghost function Paths(b: Body, stack: seq<Signature>): set<seq<Signature>> {
    match b
    case Done => {}
    case Block(sig, inner, next) => {stack + [sig]} + Paths(inner, stack + [sig]) + Paths(next, stack)
  }

  ghost predicate HasVisible(f: Filters, b: Body, depth: nat) {
    b.Block? && (!Hidden(f, b.sig, depth) || HasVisible(f, b.next, depth))
  }

  /** When a subcase on this level was entered already, the rest of the level only asks for
    another run. */
  lemma {:induction false} SkipsRest(f: Filters, b: Body, i: nat, st: State)
    requires |st.stack| < st.maxLevel
    ensures Walk(f, b, i, st) == st.(reenter := st.reenter || HasVisible(f, b, |st.stack|))
  {
    if b.Block? {
      SkipsRest(f, b.next, i + 1, Enter(f, st, b.sig, i).0);
    }
  }

  /** What every execution of every body keeps, and its progress: entering anything at all adds
    a path to the passed set. */
  lemma {:induction false} WalkKeeps(f: Filters, b: Body, i: nat, st: State)
    requires Consistent(st)
    ensures var r := Walk(f, b, i, st);
      && Consistent(r) && st.maxLevel <= r.maxLevel
      && st.passed <= r.passed <= st.passed + Paths(b, st.stack)
      && st.entered <= r.entered
      && (r.maxLevel == |st.stack| ==> r == st)
      && (|st.stack| == st.maxLevel < r.maxLevel ==> st.passed < r.passed)
  {
    if |st.stack| < st.maxLevel {
      SkipsRest(f, b, i, st);
    } else if b.Block? {
      var (s1, entered) := Enter(f, st, b.sig, i);
      if entered {
        WalkKeeps(f, b.inner, 0, s1);
        var s2 := Leave(Walk(f, b.inner, 0, s1));
        SkipsRest(f, b.next, i + 1, s2);
      } else {
        WalkKeeps(f, b.next, i + 1, s1);
      }
    }
  }

  /** Every execution of every body enters one nested chain, whatever signatures it has. */
  lemma {:induction false} WalkEntersChain(f: Filters, b: Body, i: nat, st: State) returns (t: seq<nat>)
    requires Consistent(st)
    ensures st.trail <= t && Walk(f, b, i, st).entered == st.entered + Chain(t, |st.trail|)
  {
    t := st.trail;
    assert st.entered + Chain(t, |t|) == st.entered;
    if |st.stack| < st.maxLevel {
      SkipsRest(f, b, i, st);
    } else if b.Block? {
      var (s1, entered) := Enter(f, st, b.sig, i);
      if entered {
        t := WalkEntersChain(f, b.inner, 0, s1);
        WalkKeeps(f, b.inner, 0, s1);
        SkipsRest(f, b.next, i + 1, Leave(Walk(f, b.inner, 0, s1)));
        assert st.trail <= s1.trail;
        ChainStep(t, st.trail, i);
        Associates(st.entered, [s1.trail], Chain(t, |s1.trail|));
      } else {
        t := WalkEntersChain(f, b.next, i + 1, s1);
      }
    }
  }

  // ----- distinct siblings: the passed set counts the leaves done so far -----

  ghost function NumLeaves(f: Filters, b: Body, depth: nat): nat
    decreases b, 0
  {
    match b
    case Done => 0
    case Block(sig, inner, next) =>
      (if Hidden(f, sig, depth) then 0 else NumBlockLeaves(f, inner, depth)) + NumLeaves(f, next, depth)
  }

  ghost function NumBlockLeaves(f: Filters, inner: Body, depth: nat): nat
    decreases inner, 1
  {
    if NumLeaves(f, inner, depth + 1) == 0 then 1 else NumLeaves(f, inner, depth + 1)
  }

  lemma {:induction false} LeavesCount(f: Filters, b: Body, stack: seq<Signature>, trail: seq<nat>, i: nat)
    ensures |Leaves(f, b, stack, trail, i)| == NumLeaves(f, b, |stack|)
  {
    if b.Block? {
      LeavesCount(f, b.inner, stack + [b.sig], trail + [i], 0);
      LeavesCount(f, b.next, stack, trail, i + 1);
    }
  }

  /** `passed` holds exactly the blocks of `b` whose leaves are all among the first k leaves. */
  ghost predicate Agrees(f: Filters, b: Body, stack: seq<Signature>, passed: set<seq<Signature>>, k: int) {
    match b
    case Done => k == 0
    case Block(sig, inner, next) =>
      if Hidden(f, sig, |stack|) then Agrees(f, next, stack, passed, k)
      else
        var m := NumBlockLeaves(f, inner, |stack|);
        if k < m then
          && stack + [sig] !in passed
          && Agrees(f, inner, stack + [sig], passed, k)
          && Agrees(f, next, stack, passed, 0)
        else
          && stack + [sig] in passed
          && Agrees(f, inner, stack + [sig], passed, NumLeaves(f, inner, |stack| + 1))
          && Agrees(f, next, stack, passed, k - m)
  }

  ghost function VisibleSigs(f: Filters, b: Body, depth: nat): set<Signature> {
    match b
    case Done => {}
    case Block(sig, _, next) => (if Hidden(f, sig, depth) then {} else {sig}) + VisibleSigs(f, next, depth)
  }

  /** Every path that `new` adds to `old'` lies below one of the given siblings. */
  ghost predicate AddsBelow(old': set<seq<Signature>>, new': set<seq<Signature>>,
                            stack: seq<Signature>, sigs: set<Signature>)
  {
    old' <= new' && forall q :: q in new' - old' ==> |stack| < |q| && stack <= q && q[|stack|] in sigs
  }

  lemma {:induction false} DistinctApart(f: Filters, b: Body, depth: nat, seen: set<Signature>)
    requires Distinct(f, b, depth, seen)
    ensures VisibleSigs(f, b, depth) !! seen
  {
    if b.Block? {
      DistinctApart(f, b.next, depth, if Hidden(f, b.sig, depth) then seen else seen + {b.sig});
    }
  }

  lemma Extends(stack: seq<Signature>, a: Signature, b: Signature, q: seq<Signature>)
    ensures stack + [a] <= q ==> q[|stack|] == a
    ensures stack + [a] + [b] <= q ==> stack + [a] <= q && q[|stack|] == a
  {
  }

  lemma {:induction false} AgreesFrame(f: Filters, b: Body, stack: seq<Signature>,
                                       p: set<seq<Signature>>, p': set<seq<Signature>>, k: int)
    requires Agrees(f, b, stack, p, k) && p <= p'
    requires forall q, sig :: q in p' - p && sig in VisibleSigs(f, b, |stack|) ==> !(stack + [sig] <= q)
    ensures Agrees(f, b, stack, p', k)
  {
    if b.Block? {
      var m := NumBlockLeaves(f, b.inner, |stack|);
      if Hidden(f, b.sig, |stack|) {
        AgreesFrame(f, b.next, stack, p, p', k);
      } else {
        assert b.sig in VisibleSigs(f, b, |stack|);
        forall q, sig | q in p' - p && sig in VisibleSigs(f, b.inner, |stack| + 1)
          ensures !(stack + [b.sig] + [sig] <= q)
        {
          Extends(stack, b.sig, sig, q);
        }
        if stack + [b.sig] in p' - p {
          Extends(stack, b.sig, b.sig, stack + [b.sig]);
          assert false;
        }
        AgreesFrame(f, b.inner, stack + [b.sig], p, p', if k < m then k else NumLeaves(f, b.inner, |stack| + 1));
        AgreesFrame(f, b.next, stack, p, p', if k < m then 0 else k - m);
      }
    }
  }

  lemma AgreesAfterLeave(f: Filters, b: Body, stack: seq<Signature>, p: set<seq<Signature>>, k: int)
    requires Agrees(f, b, stack, p, k)
    ensures Agrees(f, b, stack, p + {stack}, k)
  {
    AgreesFrame(f, b, stack, p, p + {stack}, k);
  }

  lemma AgreesBeside(f: Filters, b: Body, stack: seq<Signature>,
                     p: set<seq<Signature>>, p': set<seq<Signature>>, sigs: set<Signature>, k: int)
    requires Agrees(f, b, stack, p, k) && AddsBelow(p, p', stack, sigs)
    requires sigs !! VisibleSigs(f, b, |stack|)
    ensures Agrees(f, b, stack, p', k)
  {
    forall q, sig | q in p' - p && sig in VisibleSigs(f, b, |stack|)
      ensures !(stack + [sig] <= q)
    {
      Extends(stack, sig, sig, q);
    }
    AgreesFrame(f, b, stack, p, p', k);
  }

  lemma AgreesInside(f: Filters, inner: Body, stack: seq<Signature>, mine: Signature,
                     p: set<seq<Signature>>, p': set<seq<Signature>>, sigs: set<Signature>, k: int)
    requires Agrees(f, inner, stack + [mine], p, k) && AddsBelow(p, p', stack, sigs)
    requires mine !in sigs
    ensures Agrees(f, inner, stack + [mine], p', k)
  {
    forall q, sig | q in p' - p && sig in VisibleSigs(f, inner, |stack| + 1)
      ensures !(stack + [mine] + [sig] <= q)
    {
      Extends(stack, mine, sig, q);
    }
    AgreesFrame(f, inner, stack + [mine], p, p', k);
  }

  /** What a nested body adds, plus its own block when it is left, lies below that block. */
  lemma AddsBelowBlock(p: set<seq<Signature>>, p': set<seq<Signature>>, stack: seq<Signature>, mine: Signature,
                       sigs: set<Signature>)
    requires AddsBelow(p, p', stack + [mine], sigs)
    ensures AddsBelow(p, p', stack, {mine}) && AddsBelow(p, p' + {stack + [mine]}, stack, {mine})
    ensures stack + [mine] in p' ==> stack + [mine] in p
  {
    forall q | q in p' - p
      ensures |stack| < |q| && stack <= q && q[|stack|] == mine
    {
      assert q[|stack|] == (stack + [mine])[|stack|];
    }
  }

  lemma {:induction false} NothingPassed(f: Filters, b: Body, stack: seq<Signature>)
    ensures Agrees(f, b, stack, {}, 0)
  {
    if b.Block? {
      NothingPassed(f, b.inner, stack + [b.sig]);
      NothingPassed(f, b.next, stack);
    }
  }

  /** The leaves of the later siblings lie behind their first position. */
  lemma {:induction false} LeavesBehind(f: Filters, b: Body, stack: seq<Signature>, trail: seq<nat>, i: nat, j: nat)
    requires j < |Leaves(f, b, stack, trail, i)|
    ensures var t := Leaves(f, b, stack, trail, i)[j].trail;
      |trail| < |t| && trail <= t && t[|trail|] >= i
  {
    if b.Block? {
      var mine := if Hidden(f, b.sig, |stack|) then [] else BlockLeaves(f, b.sig, b.inner, stack, trail, i);
      if |mine| <= j {
        LeavesBehind(f, b.next, stack, trail, i + 1, j - |mine|);
      } else if Leaves(f, b.inner, stack + [b.sig], trail + [i], 0) != [] {
        LeavesBehind(f, b.inner, stack + [b.sig], trail + [i], 0, j);
        assert trail <= trail + [i];
      }
    }
  }

  lemma ChainStep(t: seq<nat>, trail: seq<nat>, i: nat)
    requires trail + [i] <= t
    ensures [trail + [i]] + Chain(t, |trail| + 1) == Chain(t, |trail|)
  {
    var whole := Chain(t, |trail|);
    assert whole[0] == t[..|trail| + 1] == trail + [i];
    assert whole[1..] == Chain(t, |trail| + 1);
  }

  lemma BlockChain(f: Filters, sig: Signature, inner: Body, stack: seq<Signature>, trail: seq<nat>, i: nat, k: nat)
    requires k < |BlockLeaves(f, sig, inner, stack, trail, i)|
    ensures var t := BlockLeaves(f, sig, inner, stack, trail, i)[k].trail;
      var below := Leaves(f, inner, stack + [sig], trail + [i], 0);
      && |trail| < |t|
      && Chain(t, |trail|) == if below == [] then [trail + [i]] else [trail + [i]] + Chain(below[k].trail, |trail| + 1)
  {
    var below := Leaves(f, inner, stack + [sig], trail + [i], 0);
    if below == [] {
      assert (trail + [i])[..|trail| + 1] == trail + [i];
    } else {
      LeavesBehind(f, inner, stack + [sig], trail + [i], 0, k);
      ChainStep(below[k].trail, trail, i);
    }
  }

  /** What executing a body does once the first k leaves are passed: it enters the chain to
    leaf k and nothing else, marks just that leaf and the ancestors it completes, and asks for
    another run exactly when a leaf is left. */
  ghost predicate VisitsLeaf(f: Filters, b: Body, i: nat, st: State, k: nat) {
    var r := Walk(f, b, i, st);
    var ls := Leaves(f, b, st.stack, st.trail, i);
    && k <= |ls|
    && (k == |ls| ==> r == st)
    && (k < |ls| ==>
          && Agrees(f, b, st.stack, r.passed, k + 1)
          && AddsBelow(st.passed, r.passed, st.stack, VisibleSigs(f, b, |st.stack|))
          && r.maxLevel > |st.stack|
          && r.reenter == (k + 1 < |ls|)
          && |st.trail| <= |ls[k].trail|
          && r.entered == st.entered + Chain(ls[k].trail, |st.trail|))
  }

  ghost predicate AtLeaf(f: Filters, b: Body, st: State, seen: set<Signature>, k: nat) {
    && |st.stack| == st.maxLevel && !st.reenter
    && Distinct(f, b, |st.stack|, seen)
    && Agrees(f, b, st.stack, st.passed, k)
  }

  lemma {:induction false} WalkVisitsNextLeaf(f: Filters, b: Body, i: nat, st: State, seen: set<Signature>, k: nat)
    requires AtLeaf(f, b, st, seen, k)
    ensures VisitsLeaf(f, b, i, st, k)
    decreases b, 2
  {
    if b.Block? {
      if Hidden(f, b.sig, |st.stack|) {
        WalkVisitsNextLeaf(f, b.next, i + 1, st, seen, k);
      } else if k < NumBlockLeaves(f, b.inner, |st.stack|) {
        BlockVisitsNextLeaf(f, b, i, st, seen, k);
      } else {
        SkipsPassedBlock(f, b, i, st, seen, k);
      }
    }
  }

  lemma SkipsPassedBlock(f: Filters, b: Body, i: nat, st: State, seen: set<Signature>, k: nat)
    requires AtLeaf(f, b, st, seen, k)
    requires b.Block? && !Hidden(f, b.sig, |st.stack|)
    requires k >= NumBlockLeaves(f, b.inner, |st.stack|)
    ensures VisitsLeaf(f, b, i, st, k)
    decreases b, 0
  {
    hide Agrees, Distinct, Walk, Leaves, NumLeaves, NumBlockLeaves, BlockLeaves, VisibleSigs, Hidden;
    OpenBlock(f, b, i, st, k);
    OpenDistinct(f, b, |st.stack|, seen);
    var m := NumBlockLeaves(f, b.inner, |st.stack|);
    WalkVisitsNextLeaf(f, b.next, i + 1, st, seen + {b.sig}, k - m);
    var r := Walk(f, b, i, st);
    if k - m < |Leaves(f, b.next, st.stack, st.trail, i + 1)| {
      AgreesInside(f, b.inner, st.stack, b.sig, st.passed, r.passed, VisibleSigs(f, b.next, |st.stack|),
                   NumLeaves(f, b.inner, |st.stack| + 1));
      OpenBlock(f, b, i, r, k + 1);
    }
  }

  /** The definitions above, opened once at a visible block. */
  lemma OpenBlock(f: Filters, b: Body, i: nat, st: State, k: int)
    requires b.Block? && !Hidden(f, b.sig, |st.stack|)
    ensures var m := NumBlockLeaves(f, b.inner, |st.stack|);
      var s' := st.stack + [b.sig];
      Agrees(f, b, st.stack, st.passed, k) <==>
        if k < m then
          s' !in st.passed && Agrees(f, b.inner, s', st.passed, k) && Agrees(f, b.next, st.stack, st.passed, 0)
        else
          && s' in st.passed && Agrees(f, b.inner, s', st.passed, NumLeaves(f, b.inner, |s'|))
          && Agrees(f, b.next, st.stack, st.passed, k - m)
    ensures Leaves(f, b, st.stack, st.trail, i) ==
      BlockLeaves(f, b.sig, b.inner, st.stack, st.trail, i) + Leaves(f, b.next, st.stack, st.trail, i + 1)
    ensures |BlockLeaves(f, b.sig, b.inner, st.stack, st.trail, i)| == NumBlockLeaves(f, b.inner, |st.stack|)
    ensures |Leaves(f, b.next, st.stack, st.trail, i + 1)| == NumLeaves(f, b.next, |st.stack|)
    ensures VisibleSigs(f, b, |st.stack|) == {b.sig} + VisibleSigs(f, b.next, |st.stack|)
    ensures var (s1, entered) := Enter(f, st, b.sig, i);
      Walk(f, b, i, st) == Walk(f, b.next, i + 1, if entered then Leave(Walk(f, b.inner, 0, s1)) else s1)
  {
    LeavesCount(f, b.inner, st.stack + [b.sig], st.trail + [i], 0);
    LeavesCount(f, b.next, st.stack, st.trail, i + 1);
  }

  lemma OpenDistinct(f: Filters, b: Body, depth: nat, seen: set<Signature>)
    requires b.Block? && !Hidden(f, b.sig, depth) && Distinct(f, b, depth, seen)
    ensures Distinct(f, b.inner, depth + 1, {}) && Distinct(f, b.next, depth, seen + {b.sig})
    ensures b.sig !in VisibleSigs(f, b.next, depth)
  {
    DistinctApart(f, b.next, depth, seen + {b.sig});
  }

  lemma EntersInnerAtLeaf(f: Filters, b: Body, i: nat, st: State, seen: set<Signature>, k: nat)
    requires AtLeaf(f, b, st, seen, k)
    requires b.Block? && !Hidden(f, b.sig, |st.stack|)
    requires k < NumBlockLeaves(f, b.inner, |st.stack|)
    ensures st.stack + [b.sig] !in st.passed
    ensures Enter(f, st, b.sig, i).1 && AtLeaf(f, b.inner, Enter(f, st, b.sig, i).0, {}, k)
  {
  }

  /** The state behind a block that is entered. */
  ghost function AfterBlock(f: Filters, b: Body, i: nat, st: State): State
    requires b.Block? && Enter(f, st, b.sig, i).1
  {
    Leave(Walk(f, b.inner, 0, Enter(f, st, b.sig, i).0))
  }

  lemma EnterNests(f: Filters, st: State, sig: Signature, i: nat)
    requires Enter(f, st, sig, i).1
    ensures var s := Enter(f, st, sig, i).0;
      && s.stack == st.stack + [sig] && s.trail == st.trail + [i] && s.passed == st.passed
      && s.maxLevel == |s.stack| && s.reenter == st.reenter && s.entered == st.entered + [s.trail]
  {
  }

  lemma LeaveReturns(s: State, st: State, sig: Signature, i: nat)
    requires s.stack == st.stack + [sig] && s.trail == st.trail + [i]
    ensures var r := Leave(s);
      && r.stack == st.stack && r.trail == st.trail
      && r.maxLevel == s.maxLevel && r.reenter == s.reenter && r.entered == s.entered
  {
  }

  /** The block of leaf k is entered: what happened inside, seen from its own stack. */
  lemma EntersBlock(f: Filters, b: Body, i: nat, st: State, seen: set<Signature>, k: nat)
    requires AtLeaf(f, b, st, seen, k)
    requires b.Block? && !Hidden(f, b.sig, |st.stack|)
    requires k < NumBlockLeaves(f, b.inner, |st.stack|)
    ensures Enter(f, st, b.sig, i).1
    ensures var r := AfterBlock(f, b, i, st);
      var mine := BlockLeaves(f, b.sig, b.inner, st.stack, st.trail, i);
      && k < |mine|
      && r.stack == st.stack && r.trail == st.trail
      && r.maxLevel > |st.stack|
      && r.reenter == (k + 1 < |mine|)
      && |st.trail| <= |mine[k].trail|
      && r.entered == st.entered + Chain(mine[k].trail, |st.trail|)
    decreases b, 0
  {
    EntersInnerAtLeaf(f, b, i, st, seen, k);
    LeavesCount(f, b.inner, st.stack + [b.sig], st.trail + [i], 0);
    hide AtLeaf, Agrees, Distinct, Walk, Leaves, NumLeaves, VisibleSigs, Hidden, AddsBelow, Chain, Enter, Leave;
    EnterNests(f, st, b.sig, i);
    var s1 := Enter(f, st, b.sig, i).0;
    var s2 := Walk(f, b.inner, 0, s1);
    LeaveReturns(s2, st, b.sig, i);
    WalkVisitsNextLeaf(f, b.inner, 0, s1, {}, k);
    BlockChain(f, b.sig, b.inner, st.stack, st.trail, i, k);
    var below := Leaves(f, b.inner, s1.stack, s1.trail, 0);
    if below == [] {
      assert s2 == s1;
    } else {
      Associates(st.entered, [s1.trail], Chain(below[k].trail, |s1.trail|));
      assert BlockLeaves(f, b.sig, b.inner, st.stack, st.trail, i) == below;
    }
  }

  /** The block of leaf k is entered: what it marks as passed. */
  lemma BlockMarks(f: Filters, b: Body, i: nat, st: State, seen: set<Signature>, k: nat)
    requires AtLeaf(f, b, st, seen, k)
    requires b.Block? && !Hidden(f, b.sig, |st.stack|)
    requires k < NumBlockLeaves(f, b.inner, |st.stack|)
    ensures Enter(f, st, b.sig, i).1
    ensures var r := AfterBlock(f, b, i, st);
      var s' := st.stack + [b.sig];
      var last := k + 1 == NumBlockLeaves(f, b.inner, |st.stack|);
      && (s' in r.passed <==> last)
      && Agrees(f, b.inner, s', r.passed, if last then NumLeaves(f, b.inner, |s'|) else k + 1)
      && AddsBelow(st.passed, r.passed, st.stack, {b.sig})
    decreases b, 0
  {
    EntersInnerAtLeaf(f, b, i, st, seen, k);
    var s' := st.stack + [b.sig];
    LeavesCount(f, b.inner, s', st.trail + [i], 0);
    hide Agrees, Distinct, Walk, Leaves, NumLeaves, VisibleSigs, Hidden, AddsBelow, Chain;
    var s1 := Enter(f, st, b.sig, i).0;
    var s2 := Walk(f, b.inner, 0, s1);
    WalkVisitsNextLeaf(f, b.inner, 0, s1, {}, k);
    AgreesAfterLeave(f, b.inner, s', s2.passed, if s2 == s1 then k else k + 1);
    AddsNothing(st.passed, s', VisibleSigs(f, b.inner, |s'|));
    AddsBelowBlock(st.passed, s2.passed, st.stack, b.sig, VisibleSigs(f, b.inner, |s'|));
  }

  lemma AddsNothing(p: set<seq<Signature>>, stack: seq<Signature>, sigs: set<Signature>)
    ensures AddsBelow(p, p, stack, sigs)
  {
  }

  lemma BlockVisitsNextLeaf(f: Filters, b: Body, i: nat, st: State, seen: set<Signature>, k: nat)
    requires AtLeaf(f, b, st, seen, k)
    requires b.Block? && !Hidden(f, b.sig, |st.stack|)
    requires k < NumBlockLeaves(f, b.inner, |st.stack|)
    ensures VisitsLeaf(f, b, i, st, k)
    decreases b, 1
  {
    EntersBlock(f, b, i, st, seen, k);
    BlockMarks(f, b, i, st, seen, k);
    hide Agrees, Distinct, Walk, Leaves, NumLeaves, NumBlockLeaves, BlockLeaves, VisibleSigs, Hidden, HasVisible,
      Enter, Leave, AddsBelow, Chain;
    OpenBlock(f, b, i, st, k);
    OpenDistinct(f, b, |st.stack|, seen);
    var s2 := AfterBlock(f, b, i, st);
    AgreesBeside(f, b.next, st.stack, st.passed, s2.passed, {b.sig}, 0);
    OpenBlock(f, b, i, s2, k + 1);
    SkipsRest(f, b.next, i + 1, s2);
    VisibleMeansLeaves(f, b.next, |st.stack|);
    AddsBelowMore(st.passed, s2.passed, st.stack, {b.sig}, VisibleSigs(f, b.next, |st.stack|));
    var mine := BlockLeaves(f, b.sig, b.inner, st.stack, st.trail, i);
    assert Leaves(f, b, st.stack, st.trail, i)[k] == mine[k];
  }

  lemma AddsBelowMore(p: set<seq<Signature>>, p': set<seq<Signature>>, stack: seq<Signature>, sigs: set<Signature>,
                      more: set<Signature>)
    requires AddsBelow(p, p', stack, sigs)
    ensures AddsBelow(p, p', stack, sigs + more)
  {
  }

  lemma {:induction false} VisibleMeansLeaves(f: Filters, b: Body, depth: nat)
    ensures HasVisible(f, b, depth) <==> NumLeaves(f, b, depth) > 0
  {
    if b.Block? {
      VisibleMeansLeaves(f, b.next, depth);
    }
  }

  // ----- between runs -----

  /** After k runs the leaves passed are the first k ones. */
  lemma {:induction false} PassedAreFirstLeaves(f: Filters, b: Body, stack: seq<Signature>, trail: seq<nat>, i: nat,
                                                passed: set<seq<Signature>>, k: int)
    requires Agrees(f, b, stack, passed, k)
    ensures var ls := Leaves(f, b, stack, trail, i);
      0 <= k <= |ls| && forall j :: 0 <= j < |ls| ==> (ls[j].stack in passed <==> j < k)
  {
    if b.Block? {
      if Hidden(f, b.sig, |stack|) {
        PassedAreFirstLeaves(f, b.next, stack, trail, i + 1, passed, k);
      } else {
        var s' := stack + [b.sig];
        LeavesCount(f, b.inner, s', trail + [i], 0);
        var m := NumBlockLeaves(f, b.inner, |stack|);
        PassedAreFirstLeaves(f, b.inner, s', trail + [i], 0, passed, if k < m then k else NumLeaves(f, b.inner, |s'|));
        PassedAreFirstLeaves(f, b.next, stack, trail, i + 1, passed, if k < m then 0 else k - m);
        var mine := BlockLeaves(f, b.sig, b.inner, stack, trail, i);
        var later := Leaves(f, b.next, stack, trail, i + 1);
        assert Leaves(f, b, stack, trail, i) == mine + later;
      }
    }
  }

  /** The paths of signatures of the blocks a body shows. */
  ghost function VisiblePaths(f: Filters, b: Body, stack: seq<Signature>): set<seq<Signature>> {
    match b
    case Done => {}
    case Block(sig, inner, next) =>
      (if Hidden(f, sig, |stack|) then {} else {stack + [sig]} + VisiblePaths(f, inner, stack + [sig]))
      + VisiblePaths(f, next, stack)
  }

  lemma {:induction false} PathsBelowSigs(f: Filters, b: Body, stack: seq<Signature>, q: seq<Signature>)
    requires q in VisiblePaths(f, b, stack)
    ensures |stack| < |q| && stack <= q && q[|stack|] in VisibleSigs(f, b, |stack|)
  {
    if q in VisiblePaths(f, b.next, stack) {
      PathsBelowSigs(f, b.next, stack, q);
    } else if q != stack + [b.sig] {
      PathsBelowSigs(f, b.inner, stack + [b.sig], q);
      assert q[|stack|] == (stack + [b.sig])[|stack|];
    }
  }

  lemma {:induction false} LeafIsPath(f: Filters, b: Body, stack: seq<Signature>, trail: seq<nat>, i: nat, j: nat)
    requires j < |Leaves(f, b, stack, trail, i)|
    ensures Leaves(f, b, stack, trail, i)[j].stack in VisiblePaths(f, b, stack)
  {
    if b.Block? {
      var mine := if Hidden(f, b.sig, |stack|) then [] else BlockLeaves(f, b.sig, b.inner, stack, trail, i);
      if |mine| <= j {
        LeafIsPath(f, b.next, stack, trail, i + 1, j - |mine|);
      } else if Leaves(f, b.inner, stack + [b.sig], trail + [i], 0) != [] {
        LeafIsPath(f, b.inner, stack + [b.sig], trail + [i], 0, j);
      }
    }
  }

  /** Every leaf below q is among the first k. */
  ghost predicate AllBelowWithin(ls: seq<Leaf>, q: seq<Signature>, k: int) {
    forall j :: 0 <= j < |ls| && q <= ls[j].stack ==> j < k
  }

  /** No leaf of a level lies below a block of another signature on that level. */
  lemma SiblingsApart(f: Filters, b: Body, stack: seq<Signature>, trail: seq<nat>, i: nat, q: seq<Signature>)
    requires |stack| < |q| && q[|stack|] !in VisibleSigs(f, b, |stack|)
    ensures AllBelowWithin(Leaves(f, b, stack, trail, i), q, 0)
  {
    var ls := Leaves(f, b, stack, trail, i);
    forall j | 0 <= j < |ls| ensures !(q <= ls[j].stack) {
      LeafIsPath(f, b, stack, trail, i, j);
      PathsBelowSigs(f, b, stack, ls[j].stack);
    }
  }

  lemma OwnLeavesApart(f: Filters, sig: Signature, inner: Body, stack: seq<Signature>, trail: seq<nat>, i: nat,
                       q: seq<Signature>)
    requires |stack| < |q|
    ensures var mine := BlockLeaves(f, sig, inner, stack, trail, i);
      && (q[|stack|] != sig ==> AllBelowWithin(mine, q, 0))
      && (forall k :: AllBelowWithin(mine, stack + [sig], k) <==> k >= |mine|)
  {
    var mine := BlockLeaves(f, sig, inner, stack, trail, i);
    forall j | 0 <= j < |mine|
      ensures stack + [sig] <= mine[j].stack && mine[j].stack[|stack|] == sig
    {
      var l := mine[j].stack;
      if Leaves(f, inner, stack + [sig], trail + [i], 0) != [] {
        LeafIsPath(f, inner, stack + [sig], trail + [i], 0, j);
        PathsBelowSigs(f, inner, stack + [sig], l);
      }
      assert l[|stack|] == (stack + [sig])[|stack|];
    }
    assert stack + [sig] <= mine[|mine| - 1].stack;
  }

  /** A block is in the passed set exactly when every leaf below it is among the first k, that is
    (PassedAreFirstLeaves), when every leaf below it is in the passed set. */
  lemma {:induction false} PassedIsClosed(f: Filters, b: Body, stack: seq<Signature>, trail: seq<nat>, i: nat,
                                          passed: set<seq<Signature>>, seen: set<Signature>, k: int, q: seq<Signature>)
    requires Agrees(f, b, stack, passed, k) && Distinct(f, b, |stack|, seen)
    requires q in VisiblePaths(f, b, stack)
    ensures q in passed <==> AllBelowWithin(Leaves(f, b, stack, trail, i), q, k)
    decreases b, 1
  {
    if Hidden(f, b.sig, |stack|) {
      PassedIsClosed(f, b.next, stack, trail, i + 1, passed, seen, k, q);
      assert Leaves(f, b, stack, trail, i) == Leaves(f, b.next, stack, trail, i + 1);
    } else {
      PathsBelowSigs(f, b, stack, q);
      OpenBlock(f, b, i, State(stack, trail, passed, 0, false, []), k);
      OpenDistinct(f, b, |stack|, seen);
      var mine := BlockLeaves(f, b.sig, b.inner, stack, trail, i);
      var later := Leaves(f, b.next, stack, trail, i + 1);
      if q in VisiblePaths(f, b.next, stack) {
        var k' := if k < |mine| then 0 else k - |mine|;
        PassedIsClosed(f, b.next, stack, trail, i + 1, passed, seen + {b.sig}, k', q);
        PathsBelowSigs(f, b.next, stack, q);
        hide *;
        OwnLeavesApart(f, b.sig, b.inner, stack, trail, i, q);
        WithinConcat(mine, later, q, k, k');
      } else {
        ClosedInBlock(f, b, stack, trail, i, passed, k, q);
        hide *;
        SiblingsApart(f, b.next, stack, trail, i + 1, q);
        WithinConcat(mine, later, q, k, 0);
      }
    }
  }

  /** The leaves below q that lie on one side only. */
  lemma WithinConcat(mine: seq<Leaf>, later: seq<Leaf>, q: seq<Signature>, k: int, k': nat)
    ensures AllBelowWithin(later, q, 0) ==> (AllBelowWithin(mine + later, q, k) <==> AllBelowWithin(mine, q, k))
    ensures AllBelowWithin(mine, q, 0) && k' == (if k < |mine| then 0 else k - |mine|) ==>
      (AllBelowWithin(mine + later, q, k) <==> AllBelowWithin(later, q, k'))
  {
    var all := mine + later;
    assert forall j :: 0 <= j < |mine| ==> mine[j] == all[j];
    assert forall j :: 0 <= j < |later| ==> later[j] == all[|mine| + j];
    assert forall j :: |mine| <= j < |all| ==> all[j] == later[j - |mine|];
  }

  lemma ClosedInBlock(f: Filters, b: Body, stack: seq<Signature>, trail: seq<nat>, i: nat,
                      passed: set<seq<Signature>>, k: int, q: seq<Signature>)
    requires b.Block? && !Hidden(f, b.sig, |stack|) && Distinct(f, b.inner, |stack| + 1, {})
    requires Agrees(f, b, stack, passed, k)
    requires q == stack + [b.sig] || q in VisiblePaths(f, b.inner, stack + [b.sig])
    ensures |stack| < |q| && q[|stack|] == b.sig
    ensures q in passed <==> AllBelowWithin(BlockLeaves(f, b.sig, b.inner, stack, trail, i), q, k)
    decreases b, 0
  {
    var s' := stack + [b.sig];
    OpenBlock(f, b, i, State(stack, trail, passed, 0, false, []), k);
    LeavesCount(f, b.inner, s', trail + [i], 0);
    var mine := BlockLeaves(f, b.sig, b.inner, stack, trail, i);
    if q == s' {
      hide *;
      OwnLeavesApart(f, b.sig, b.inner, stack, trail, i, q);
    } else {
      PathsBelowSigs(f, b.inner, s', q);
      assert q[|stack|] == s'[|stack|];
      BlockLeavesWithin(f, b, stack, trail, i, q, k);
      var k' := if k < |mine| then k else NumLeaves(f, b.inner, |s'|);
      hide *;
      PassedIsClosed(f, b.inner, s', trail + [i], 0, passed, {}, k', q);
    }
  }

  lemma BlockLeavesWithin(f: Filters, b: Body, stack: seq<Signature>, trail: seq<nat>, i: nat, q: seq<Signature>,
                          k: int)
    requires b.Block? && |stack| + 1 < |q|
    ensures var below := Leaves(f, b.inner, stack + [b.sig], trail + [i], 0);
      var mine := BlockLeaves(f, b.sig, b.inner, stack, trail, i);
      && AllBelowWithin(mine, q, k) == AllBelowWithin(below, q, k)
      && AllBelowWithin(below, q, |below|)
      && (k >= |mine| ==> AllBelowWithin(mine, q, k))
  {
  }

  // ----- equal siblings: the later one is never entered -----

  /** `rel` is the position of a visible block none of whose enclosing blocks, itself included,
    has an earlier visible sibling with its signature (`seen` are the earlier signatures). */
  ghost predicate FirstOfItsKind(f: Filters, b: Body, depth: nat, i: nat, seen: set<Signature>, rel: seq<nat>) {
    match b
    case Done => false
    case Block(sig, inner, next) =>
      && rel != []
      && if rel[0] == i then
           && !Hidden(f, sig, depth) && sig !in seen
           && (|rel| == 1 || FirstOfItsKind(f, inner, depth + 1, 0, {}, rel[1..]))
         else FirstOfItsKind(f, next, depth, i + 1, seen + {sig}, rel)
  }

  /** Every visible signature in `seen` was met on this level of this run. */
  ghost predicate Met(f: Filters, st: State, seen: set<Signature>) {
    forall sig :: sig in seen && !Hidden(f, sig, |st.stack|) ==>
      |st.stack| < st.maxLevel || st.stack + [sig] in st.passed
  }

  /** Every position entered since `before` is the first of its kind below the current trail. */
  ghost predicate EntersFirsts(f: Filters, b: Body, i: nat, seen: set<Signature>, st: State, before: nat,
                               after: seq<seq<nat>>) {
    && before <= |after|
    && forall n :: before <= n < |after| ==>
         && st.trail <= after[n]
         && FirstOfItsKind(f, b, |st.stack|, i, seen, after[n][|st.trail|..])
  }

  lemma {:induction false} FirstsBehind(f: Filters, b: Body, depth: nat, i: nat, seen: set<Signature>, rel: seq<nat>)
    requires FirstOfItsKind(f, b, depth, i, seen, rel)
    ensures rel != [] && rel[0] >= i
  {
    if rel[0] != i {
      FirstsBehind(f, b.next, depth, i + 1, seen + {b.sig}, rel);
    }
  }

  lemma {:induction false} WalkEntersFirsts(f: Filters, b: Body, i: nat, st: State, seen: set<Signature>)
    requires Consistent(st) && Met(f, st, seen)
    ensures EntersFirsts(f, b, i, seen, st, |st.entered|, Walk(f, b, i, st).entered)
  {
    if b.Block? {
      var (s1, entered) := Enter(f, st, b.sig, i);
      var s2 := if entered then AfterBlock(f, b, i, st) else s1;
      if entered {
        WalkEntersFirsts(f, b.inner, 0, s1, {});
        WalkKeeps(f, b.inner, 0, s1);
        InnerFirsts(f, b, i, st, seen, s2.entered);
      }
      WalkKeeps(f, b.next, i + 1, s2);
      WalkEntersFirsts(f, b.next, i + 1, s2, seen + {b.sig});
      var after := Walk(f, b, i, st).entered;
      forall n | |s2.entered| <= n < |after|
        ensures FirstOfItsKind(f, b, |st.stack|, i, seen, after[n][|st.trail|..])
      {
        FirstsBehind(f, b.next, |st.stack|, i + 1, seen + {b.sig}, after[n][|st.trail|..]);
      }
    }
  }

  lemma InnerFirsts(f: Filters, b: Body, i: nat, st: State, seen: set<Signature>, after: seq<seq<nat>>)
    requires b.Block? && Enter(f, st, b.sig, i).1 && Met(f, st, seen)
    requires var s1 := Enter(f, st, b.sig, i).0;
      s1.entered <= after && EntersFirsts(f, b.inner, 0, {}, s1, |s1.entered|, after)
    ensures EntersFirsts(f, b, i, seen, st, |st.entered|, after)
  {
    var t' := st.trail + [i];
    assert after[|st.entered|] == t';
    forall n | |st.entered| <= n < |after|
      ensures st.trail <= after[n] && FirstOfItsKind(f, b, |st.stack|, i, seen, after[n][|st.trail|..])
    {
      var rel := after[n][|st.trail|..];
      assert t' <= after[n];
      assert rel[0] == t'[|st.trail|] == i;
      assert rel[1..] == after[n][|t'|..];
    }
  }

  /** A body with two equal visible siblings has a leaf that is not the first of its kind. */
  lemma {:induction false} TwinLeaf(f: Filters, b: Body, stack: seq<Signature>, trail: seq<nat>, i: nat,
                                    seen: set<Signature>)
    returns (j: nat)
    requires !Distinct(f, b, |stack|, seen)
    ensures j < |Leaves(f, b, stack, trail, i)|
    ensures var t := Leaves(f, b, stack, trail, i)[j].trail;
      trail <= t && !FirstOfItsKind(f, b, |stack|, i, seen, t[|trail|..])
  {
    var mine := if Hidden(f, b.sig, |stack|) then [] else BlockLeaves(f, b.sig, b.inner, stack, trail, i);
    var all := Leaves(f, b, stack, trail, i);
    if !Hidden(f, b.sig, |stack|) && b.sig in seen {
      j := 0;
      LeavesBehindBlock(f, b.sig, b.inner, stack, trail, i, j);
    } else if !Hidden(f, b.sig, |stack|) && !Distinct(f, b.inner, |stack| + 1, {}) {
      j := TwinLeaf(f, b.inner, stack + [b.sig], trail + [i], 0, {});
      LeavesBehindBlock(f, b.sig, b.inner, stack, trail, i, j);
      LeavesBehind(f, b.inner, stack + [b.sig], trail + [i], 0, j);
      var t := all[j].trail;
      assert t[|trail|..][1..] == t[|trail| + 1..];
    } else {
      j := TwinLeaf(f, b.next, stack, trail, i + 1, if Hidden(f, b.sig, |stack|) then seen else seen + {b.sig});
      LeavesBehind(f, b.next, stack, trail, i + 1, j);
      j := |mine| + j;
      if Hidden(f, b.sig, |stack|) {
        SeenHidden(f, b.next, |stack|, i + 1, seen, b.sig, all[j].trail[|trail|..]);
      }
    }
  }

  lemma LeavesBehindBlock(f: Filters, sig: Signature, inner: Body, stack: seq<Signature>, trail: seq<nat>, i: nat,
                          j: nat)
    requires j < |BlockLeaves(f, sig, inner, stack, trail, i)|
    ensures var t := BlockLeaves(f, sig, inner, stack, trail, i)[j].trail;
      trail + [i] <= t && trail <= t && t[|trail|] == i
  {
    if Leaves(f, inner, stack + [sig], trail + [i], 0) != [] {
      LeavesBehind(f, inner, stack + [sig], trail + [i], 0, j);
    }
    var t := BlockLeaves(f, sig, inner, stack, trail, i)[j].trail;
    assert t[|trail|] == (trail + [i])[|trail|];
  }

  /** A hidden sibling is never in the way. */
  lemma {:induction false} SeenHidden(f: Filters, b: Body, depth: nat, i: nat, seen: set<Signature>, sig: Signature,
                                      rel: seq<nat>)
    requires Hidden(f, sig, depth)
    ensures FirstOfItsKind(f, b, depth, i, seen + {sig}, rel) <==> FirstOfItsKind(f, b, depth, i, seen, rel)
  {
    if b.Block? && rel != [] && rel[0] != i {
      assert seen + {sig} + {b.sig} == seen + {b.sig} + {sig};
      SeenHidden(f, b.next, depth, i + 1, seen + {b.sig}, sig, rel);
    }
  }

  // ----- whole test cases -----

  ghost predicate OnlyFirsts(f: Filters, b: Body, run: seq<seq<nat>>) {
    forall t :: t in run ==> FirstOfItsKind(f, b, 0, 0, {}, t)
  }

  ghost predicate IsChain(run: seq<seq<nat>>) {
    exists t :: run == Chain(t, 0)
  }

  /** Some leaf is in none of the runs. */
  ghost predicate MissesALeaf(f: Filters, b: Body, runs: seq<seq<seq<nat>>>) {
    var ls := Leaves(f, b, [], [], 0);
    exists j :: 0 <= j < |ls| && forall run :: run in runs ==> ls[j].trail !in run
  }

  /** With equal siblings some leaf is never reached, so the runs are not the expected ones. */
  lemma TwinsSpoilRuns(f: Filters, b: Body, runs: seq<seq<seq<nat>>>)
    requires !Distinct(f, b, 0, {})
    requires forall run :: run in runs ==> OnlyFirsts(f, b, run)
    ensures MissesALeaf(f, b, runs) && runs != ExpectedRuns(f, b)
  {
    var ls := Leaves(f, b, [], [], 0);
    var j := TwinLeaf(f, b, [], [], 0, {});
    var t := ls[j].trail;
    assert t[0..] == t;
    assert forall run :: run in runs ==> t !in run;
    LeavesBehind(f, b, [], [], 0, j);
    var run := Chain(t, 0);
    assert run[|t| - 1] == t[..|t|] == t;
    assert t in run && !OnlyFirsts(f, b, run);
    assert ExpectedRuns(f, b)[j] == run;
    assert run in ExpectedRuns(f, b);
  }

  /** Where the do-while loop stands after the given runs. */
  ghost predicate RunsDone(f: Filters, b: Body, passed: set<seq<Signature>>, runs: seq<seq<seq<nat>>>, more: bool) {
    var expected := ExpectedRuns(f, b);
    && passed <= Paths(b, [])
    && (forall run :: run in runs ==> IsChain(run) && OnlyFirsts(f, b, run))
    && (Distinct(f, b, 0, {}) ==>
          && |runs| <= |expected| && runs == expected[..|runs|] && more == (|runs| < |expected|)
          && Agrees(f, b, [], passed, if Leaves(f, b, [], [], 0) == [] then 0 else |runs|))
  }

  lemma NoRunYet(f: Filters, b: Body)
    ensures RunsDone(f, b, {}, [], true)
  {
    NothingPassed(f, b, []);
  }

  /** One more run of the body: it keeps the bookkeeping, and if it asks for another one it has
    used up a path. */
  lemma NextRun(f: Filters, b: Body, passed: set<seq<Signature>>, runs: seq<seq<seq<nat>>>)
    requires RunsDone(f, b, passed, runs, true)
    ensures var r := Walk(f, b, 0, FreshRun(passed));
      && RunsDone(f, b, r.passed, runs + [r.entered], r.reenter)
      && (r.reenter ==> |Paths(b, []) - r.passed| < |Paths(b, []) - passed|)
  {
    hide Agrees, Distinct, Walk, Leaves, Paths, ExpectedRuns, OnlyFirsts, IsChain;
    var r := Walk(f, b, 0, FreshRun(passed));
    RunProgress(f, b, passed);
    RunEntersFirsts(f, b, passed);
    if Distinct(f, b, 0, {}) {
      RunVisitsNextLeaf(f, b, passed, runs);
    }
  }

  lemma RunProgress(f: Filters, b: Body, passed: set<seq<Signature>>)
    requires passed <= Paths(b, [])
    ensures var r := Walk(f, b, 0, FreshRun(passed));
      && r.passed <= Paths(b, [])
      && (r.reenter ==> |Paths(b, []) - r.passed| < |Paths(b, []) - passed|)
  {
    WalkKeeps(f, b, 0, FreshRun(passed));
    var r := Walk(f, b, 0, FreshRun(passed));
    if r.reenter {
      FewerLeft(Paths(b, []), passed, r.passed);
    }
  }

  lemma RunEntersFirsts(f: Filters, b: Body, passed: set<seq<Signature>>)
    ensures var run := Walk(f, b, 0, FreshRun(passed)).entered;
      IsChain(run) && OnlyFirsts(f, b, run)
  {
    var st := FreshRun(passed);
    var chain := WalkEntersChain(f, b, 0, st);
    assert [] + Chain(chain, 0) == Chain(chain, 0);
    WalkEntersFirsts(f, b, 0, st, {});
    forall t | t in Walk(f, b, 0, st).entered
      ensures FirstOfItsKind(f, b, 0, 0, {}, t)
    {
      assert t[0..] == t;
    }
  }

  lemma RunVisitsNextLeaf(f: Filters, b: Body, passed: set<seq<Signature>>, runs: seq<seq<seq<nat>>>)
    requires RunsDone(f, b, passed, runs, true) && Distinct(f, b, 0, {})
    ensures var r := Walk(f, b, 0, FreshRun(passed));
      var expected := ExpectedRuns(f, b);
      && |runs| < |expected| && r.entered == expected[|runs|] && r.reenter == (|runs| + 1 < |expected|)
      && Agrees(f, b, [], r.passed, if Leaves(f, b, [], [], 0) == [] then 0 else |runs| + 1)
  {
    hide Agrees, Distinct, Walk, Leaves, Paths;
    WalkVisitsNextLeaf(f, b, 0, FreshRun(passed), {}, |runs|);
  }

  /** Between two runs the passed set is closed: a block is in it exactly when all leaves below are. */
  lemma ClosedBetweenRuns(f: Filters, b: Body, passed: set<seq<Signature>>, k: nat)
    requires Distinct(f, b, 0, {}) && Agrees(f, b, [], passed, k)
    ensures var ls := Leaves(f, b, [], [], 0);
      && (forall j :: 0 <= j < |ls| ==> (ls[j].stack in passed <==> j < k))
      && (forall q :: q in VisiblePaths(f, b, []) ==>
            (q in passed <==> forall j :: 0 <= j < |ls| && q <= ls[j].stack ==> ls[j].stack in passed))
  {
    var ls := Leaves(f, b, [], [], 0);
    PassedAreFirstLeaves(f, b, [], [], 0, passed, k);
    forall q | q in VisiblePaths(f, b, [])
      ensures q in passed <==> forall j :: 0 <= j < |ls| && q <= ls[j].stack ==> ls[j].stack in passed
    {
      PassedIsClosed(f, b, [], [], 0, passed, {}, k, q);
    }
  }

  /** One more run enters the chain to the next leaf and adds exactly that leaf. */
  lemma RunAddsOneLeaf(f: Filters, b: Body, passed: set<seq<Signature>>, k: nat)
    requires Distinct(f, b, 0, {}) && Agrees(f, b, [], passed, k) && k < |Leaves(f, b, [], [], 0)|
    ensures var r := Walk(f, b, 0, FreshRun(passed));
      var ls := Leaves(f, b, [], [], 0);
      && r.entered == Chain(ls[k].trail, 0)
      && (r.reenter <==> k + 1 < |ls|)
      && Agrees(f, b, [], r.passed, k + 1)
      && (forall j :: 0 <= j < |ls| ==> (ls[j].stack in r.passed <==> ls[j].stack in passed || j == k))
  {
    hide Agrees, Distinct, Walk, Leaves, VisiblePaths, Chain;
    WalkVisitsNextLeaf(f, b, 0, FreshRun(passed), {}, k);
    PassedAreFirstLeaves(f, b, [], [], 0, passed, k);
    PassedAreFirstLeaves(f, b, [], [], 0, Walk(f, b, 0, FreshRun(passed)).passed, k + 1);
  }

  /** One SUBCASE met twice, as in a loop: the second block is a leaf, but no run enters it. */
  lemma SubcaseInALoop(sig: Signature)
    ensures var f := Filters(0, [], [], true);
      var b := Block(sig, Done, Block(sig, Done, Done));
      var first := Walk(f, b, 0, FreshRun({}));
      var second := Walk(f, b, 0, FreshRun(first.passed));
      && ExpectedRuns(f, b) == [[[0]], [[1]]]
      && first.entered == [[0]] && first.reenter
      && second.entered == [] && !second.reenter
  {
    var f := Filters(0, [], [], true);
    var later := Block(sig, Done, Done);
    var b := Block(sig, Done, later);
    assert [] + [sig] == [sig];
    assert [] + [0] == [0] && [] + [1] == [1];
    assert BlockLeaves(f, sig, Done, [], [], 1) == [Leaf([sig], [1])];
    assert Leaves(f, Done, [], [], 2) == [];
    assert Leaves(f, later, [], [], 1) == [Leaf([sig], [1])];
    assert BlockLeaves(f, sig, Done, [], [], 0) == [Leaf([sig], [0])];
    assert Leaves(f, b, [], [], 0) == [Leaf([sig], [0]), Leaf([sig], [1])];
    assert Chain([0], 0) == [[0]] && Chain([1], 0) == [[1]] by {
      assert [0][..1] == [0] && [1][..1] == [1];
    }
    var afterBlock := State([], [], {[sig]}, 1, false, [[0]]);
    assert Walk(f, Done, 0, Enter(f, FreshRun({}), sig, 0).0) == State([sig], [0], {}, 1, false, [[0]]);
    assert AfterBlock(f, b, 0, FreshRun({})) == afterBlock;
    assert Walk(f, later, 1, afterBlock) == afterBlock.(reenter := true);
    assert Walk(f, later, 1, FreshRun({[sig]})) == FreshRun({[sig]});
  }

  lemma AllRunsDone(f: Filters, b: Body, passed: set<seq<Signature>>, runs: seq<seq<seq<nat>>>)
    requires RunsDone(f, b, passed, runs, false)
    ensures forall run :: run in runs ==> IsChain(run) && OnlyFirsts(f, b, run)
    ensures runs == ExpectedRuns(f, b) <==> Distinct(f, b, 0, {})
    ensures Distinct(f, b, 0, {}) || MissesALeaf(f, b, runs)
  {
    if !Distinct(f, b, 0, {}) {
      TwinsSpoilRuns(f, b, runs);
    }
  }

  /** The part of doctest's context that the subcase protocol works on. */
  class ContextState {
    const filters: Filters
    var subcasesStack: seq<Signature>
    var subcasesPassed: set<seq<Signature>>
    var subcasesCurrentMaxLevel: nat
    var shouldReenter: bool
    /** The position in the test body, and the positions entered during the current run. */
    ghost var trail: seq<nat>
    ghost var entered: seq<seq<nat>>

    constructor (filters: Filters)
      ensures this.filters == filters
    {
      this.filters := filters;
      subcasesStack, subcasesPassed, subcasesCurrentMaxLevel, shouldReenter := [], {}, 0, false;
      trail, entered := [], [];
    }

    ghost predicate WellNamed(b: Body) {
      && CStrings(b)
      && (forall s :: s in filters.only ==> Wildcard.CString(s))
      && (forall s :: s in filters.but ==> Wildcard.CString(s))
    }

    ghost function Now(): State
      reads this
    {
      State(subcasesStack, trail, subcasesPassed, subcasesCurrentMaxLevel, shouldReenter, entered)
    }

    /** The constructor of `Subcase`: may the i-th block of its level be entered? */
    method EnterSubcase(sig: Signature, ghost i: nat) returns (mayEnter: bool)
      requires WellNamed(Block(sig, Done, Done))
      modifies this
      ensures (Now(), mayEnter) == Enter(filters, old(Now()), sig, i)
    {
      if |subcasesStack| < filters.levels {
        var included := Wildcard.MatchesAny(sig.name, filters.only, true, filters.caseSensitive);
        if !included {
          return false;
        }
        var excluded := Wildcard.MatchesAny(sig.name, filters.but, false, filters.caseSensitive);
        if excluded {
          return false;
        }
      }
      if |subcasesStack| < subcasesCurrentMaxLevel {
        shouldReenter := true;
        return false;
      }
      subcasesStack := subcasesStack + [sig];
      if subcasesStack in subcasesPassed {
        subcasesStack := subcasesStack[..|subcasesStack| - 1];
        return false;
      }
      subcasesCurrentMaxLevel := |subcasesStack|;
      trail := trail + [i];
      entered := entered + [trail];
      return true;
    }

    /** The destructor of a `Subcase` that was entered. */
    method LeaveSubcase()
      requires subcasesStack != [] && trail != []
      modifies this
      ensures Now() == Leave(old(Now()))
    {
      if !shouldReenter {
        subcasesPassed := subcasesPassed + {subcasesStack};
      }
      subcasesStack := subcasesStack[..|subcasesStack| - 1];
      trail := trail[..|trail| - 1];
    }
  }

  lemma FewerLeft<T>(all: set<T>, before: set<T>, after: set<T>)
    requires before < after <= all
    ensures |all - after| < |all - before|
  {
    assert !(after <= before);
    var x :| x in after && x !in before;
    assert all - after <= all - before - {x};
    SubsetSize(all - after, all - before - {x});
  }

  lemma {:induction false} SubsetSize<T>(a: set<T>, b: set<T>)
    requires a <= b
    ensures |a| <= |b|
  {
    if x :| x in a {
      SubsetSize(a - {x}, b - {x});
    }
  }
}
